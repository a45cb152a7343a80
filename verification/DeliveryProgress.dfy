/**
 * That deliveries end: which events answer a client and which submit a storage job, that an exchange nobody
 * disturbs ends in a 204, and that one whose marker is not seen ends in a 503 once its abort has committed.
 */
module DeliveryProgress {
  import opened Prelude
  import opened LedgerTables
  import opened LedgerTransactions
  import opened LedgerInvariant
  import opened LedgerRecovery
  import opened LedgerReconciliation
  import opened LedgerAdmission
  import opened LedgerAdmissionInvariant
  import opened LedgerOpening
  import opened LedgerStartup
  import opened LedgerOutcomes
  import opened Delivery
  import opened DeliverySafety
  import opened DeliveryOutcome

  // Runs of a few events.

  lemma RunOne(y: System, e: Event)
    ensures Run(y, [e]) == Do(y, e)
  {
    var events := [e];
    assert events[..0] == [];
    assert Run(y, []) == y;
  }

  lemma RunAppend(y: System, events: seq<Event>, e: Event)
    ensures Run(y, events + [e]) == Do(Run(y, events), e)
  {
    RunLast(y, events + [e]);
    assert (events + [e])[..|events|] == events;
  }

  lemma RunThree(y: System, e0: Event, e1: Event, e2: Event)
    ensures Run(y, [e0] + [e1] + [e2]) == Do(Do(Do(y, e0), e1), e2)
  {
    RunOne(y, e0);
    RunAppend(y, [e0], e1);
    RunAppend(y, [e0] + [e1], e2);
  }

  // What one event does to an exchange.

  /** The event comes while the server is up and no day too late, and finds exchange f in the given phase. */
  predicate Finds(y: System, e: Event, f: nat, phase: Phase) {
    y.status == Serving && y.today <= DayOf(e.now) && f < |y.flows| && y.flows[f].phase == phase
  }

  /** The event moves exchange f to the given phase. */
  predicate Enters(y: System, e: Event, f: nat, phase: Phase) {
    f < |y.flows| && f < |Do(y, e).flows| && y.flows[f].phase != phase && Do(y, e).flows[f].phase == phase
  }

  /**
   * A client is told 204 by one event only: its exchange sees the marker committed. It is told 503 by one
   * event only: its exchange sees the abort committed.
   */
  lemma AnsweredBy(y: System, e: Event, f: nat)
    ensures Enters(y, e, f, Sent204) <==> e.action == SeeMarked(f) && Finds(y, e, f, Marking) && MarkJob(f) in y.succeeded
    ensures Enters(y, e, f, Sent503) <==> e.action == SeeAborted(f) && Finds(y, e, f, Aborting) && AbortJob(f) in y.succeeded
  {
  }

  /** The steps before an attempt is claimed. */
  lemma StartedBy(y: System, e: Event, f: nat)
    ensures Enters(y, e, f, Reverting) <==> e.action.Compensate? && e.action.flow == f && Finds(y, e, f, Holding)
    ensures Enters(y, e, f, Candidate) <==> e.action == HandOver(f) && Finds(y, e, f, Holding)
    ensures Enters(y, e, f, Beginning) <==> e.action == SubmitBegin(f) && Finds(y, e, f, Candidate)
  {
  }

  /** The steps after it. */
  lemma ContinuedBy(y: System, e: Event, f: nat)
    ensures Enters(y, e, f, Marking) <==> e.action == SeeBegun(f) && Finds(y, e, f, Beginning) && BeginJob(f) in y.succeeded
    ensures Enters(y, e, f, Aborting) <==> e.action == GiveUp(f) && Finds(y, e, f, Marking)
    ensures Enters(y, e, f, Acknowledged) <==>
              && e.action.AckDelivered? && e.action.flow == f && Finds(y, e, f, Sent204)
              && Acknowledge(y.ledger, y.flows[f].receipt.session, e.action.fileError).result.Ok?
  {
  }

  /**
   * An exchange falls silent when its receipt is dropped, when it stops waiting for a claim or an abort, when its
   * client is gone before the answer, and when the process dies before the answer.
   */
  lemma SilencedBy(y: System, e: Event, f: nat)
    ensures Enters(y, e, f, Silent) <==>
              || (e.action == DropReceipt(f) && (Finds(y, e, f, Holding) || Finds(y, e, f, Reverting)))
              || (e.action == GiveUp(f) && (Finds(y, e, f, Beginning) || Finds(y, e, f, Aborting)))
              || (e.action == Cancel(f) && (Finds(y, e, f, Candidate) || Finds(y, e, f, Beginning)
                                            || Finds(y, e, f, Marking) || Finds(y, e, f, Aborting)))
              || (e.action == Crash && y.today <= DayOf(e.now) && f < |y.flows|
                  && y.flows[f].phase !in {Silent, Sent204, Acknowledged, Sent503})
  {
  }

  /** A job is submitted by one event only; an abort by giving up on the marker. */
  lemma SubmittedBy(y: System, e: Event, f: nat)
    ensures BeginJob(f) !in y.running ==>
              (BeginJob(f) in Do(y, e).running <==> e.action == SubmitBegin(f) && Finds(y, e, f, Candidate))
    ensures MarkJob(f) !in y.running ==>
              (MarkJob(f) in Do(y, e).running <==> e.action == SeeBegun(f) && Finds(y, e, f, Beginning) && BeginJob(f) in y.succeeded)
    ensures AbortJob(f) !in y.running ==>
              (AbortJob(f) in Do(y, e).running <==> e.action == GiveUp(f) && Finds(y, e, f, Marking))
    ensures forall job: Job :: job in Do(y, e).succeeded ==> job in y.succeeded || job in y.running
  {
  }

  /** A submitted job ends by being run, by being lost, or with the process; and it has succeeded if its transaction commits. */
  lemma EndedBy(y: System, e: Event, job: Job)
    ensures job in y.running && y.today <= DayOf(e.now) ==>
              (job !in Do(y, e).running <==>
                 || e.action == LoseJob(job)
                 || e.action == Crash
                 || (e.action.RunJob? && e.action.job == job && y.status == Serving && job.flow < |y.flows|))
    ensures job !in y.succeeded ==>
              (job in Do(y, e).succeeded <==>
                 && e.action.RunJob? && e.action.job == job
                 && y.today <= DayOf(e.now) && y.status == Serving && job in y.running && job.flow < |y.flows|
                 && JobStep(y, job, e.action.fileError, e.action.lateAtStart, e.action.lateAtCommit).result.Ok?)
  {
  }

  /** The k-th event gives up on the marker of exchange f. */
  predicate GivesUpAt(y: System, events: seq<Event>, f: nat, k: nat) {
    k < |events| && events[k].action == GiveUp(f) && Finds(Run(y, events[..k]), events[k], f, Marking)
  }

  /** Some event of the run gives up on the marker of exchange f. */
  ghost predicate GaveUp(y: System, events: seq<Event>, f: nat) {
    exists k: nat :: GivesUpAt(y, events, f, k)
  }

  lemma GaveUpEarlier(y: System, events: seq<Event>, f: nat, n: nat)
    requires n <= |events| && GaveUp(y, events[..n], f)
    ensures GaveUp(y, events, f)
  {
    var k: nat :| GivesUpAt(y, events[..n], f, k);
    assert events[..n][..k] == events[..k] && events[..n][k] == events[k];
    assert GivesUpAt(y, events, f, k);
  }

  /** In every run an abort has been submitted only after its exchange gave up on the marker. */
  lemma {:induction false} AbortsAreGivenUp(y: System, events: seq<Event>, f: nat)
    requires AbortJob(f) !in y.running + y.succeeded
    requires var z := Run(y, events); AbortJob(f) in z.running + z.succeeded
    ensures GaveUp(y, events, f)
    decreases |events|
  {
    if events != [] {
      var n := |events| - 1;
      var middle := Run(y, events[..n]);
      if AbortJob(f) in middle.running + middle.succeeded {
        AbortsAreGivenUp(y, events[..n], f);
        GaveUpEarlier(y, events, f, n);
      } else {
        SubmittedBy(middle, events[n], f);
        assert GivesUpAt(y, events, f, n);
      }
    }
  }

  /** So a client is told 503 only if its exchange gave up on the marker. */
  lemma {:induction false} RefusedAfterGivingUp(limits: Limits, events: seq<Event>, f: nat)
    requires Told503(Run(Fresh(limits), events), f)
    ensures GaveUp(Fresh(limits), events, f)
    decreases |events|
  {
    var y := Fresh(limits);
    if events != [] {
      var n := |events| - 1;
      var middle := Run(y, events[..n]);
      if Told503(middle, f) {
        RefusedAfterGivingUp(limits, events[..n], f);
      } else {
        NewFlowHolds(middle, events[n], f);
        SeenAborted(middle, events[n], f);
        AbortsAreGivenUp(y, events[..n], f);
      }
      GaveUpEarlier(y, events, f, n);
    }
  }

  lemma SeenAborted(y: System, e: Event, f: nat)
    requires f < |y.flows| && !Told503(y, f) && Told503(Do(y, e), f)
    ensures AbortJob(f) in y.succeeded
  {
    AnsweredBy(y, e, f);
  }

  /** An exchange begins holding its receipt. */
  lemma NewFlowHolds(y: System, e: Event, f: nat)
    ensures |y.flows| <= f < |Do(y, e).flows| ==> Do(y, e).flows[f].phase == Holding
  {
  }

  // An exchange nobody disturbs.

  function Tick(y: System, now: nat): System {
    y.(today := DayOf(now))
  }

  /** Exchange f holds the receipt of a settlement that pends and that no attempt has claimed. */
  ghost predicate Holds(y: System, f: nat, now: nat) {
    && SystemInv(y) && At(y, f, Holding) && y.today <= DayOf(now)
    && Deliverable(y.ledger, y.flows[f].receipt.session)
    && y.ledger.settlements[y.flows[f].receipt.session].attempt.None?
  }

  /** A storage job that runs in time and finds the file as it was. */
  function Works(job: Job, now: nat): Event {
    Event(now, RunJob(job, None, false, false))
  }

  /** The exchange hands its result over, claims its attempt and submits the marker. */
  function BeginDelivering(f: nat, now: nat): seq<Event> {
    [Event(now, HandOver(f))] + [Event(now, SubmitBegin(f))] + [Works(BeginJob(f), now)] + [Event(now, SeeBegun(f))]
  }

  lemma HandedOver(y: System, f: nat, now: nat)
    requires At(y, f, Holding) && y.today <= DayOf(now)
    ensures Do(y, Event(now, HandOver(f))) == Goes(Tick(y, now), f, Candidate)
  {
  }

  lemma Submitted(y: System, f: nat, now: nat)
    requires At(y, f, Candidate) && y.today <= DayOf(now)
    ensures Do(y, Event(now, SubmitBegin(f))) == Goes(Tick(y, now), f, Beginning).(running := y.running + {BeginJob(f)})
  {
  }

  lemma SawBegun(y: System, f: nat, now: nat)
    requires At(y, f, Beginning) && y.today <= DayOf(now) && BeginJob(f) in y.succeeded
    ensures Do(y, Event(now, SeeBegun(f))) == Goes(Tick(y, now), f, Marking).(running := y.running + {MarkJob(f)})
  {
  }

  lemma SawMarked(y: System, f: nat, now: nat)
    requires At(y, f, Marking) && y.today <= DayOf(now) && MarkJob(f) in y.succeeded
    ensures Do(y, Event(now, SeeMarked(f))) == Goes(Tick(y, now), f, Sent204)
  {
  }

  lemma GaveUpMarking(y: System, f: nat, now: nat)
    requires At(y, f, Marking) && y.today <= DayOf(now)
    ensures Do(y, Event(now, GiveUp(f))) == Goes(Tick(y, now), f, Aborting).(running := y.running + {AbortJob(f)})
  {
  }

  lemma SawAborted(y: System, f: nat, now: nat)
    requires At(y, f, Aborting) && y.today <= DayOf(now) && AbortJob(f) in y.succeeded
    ensures Do(y, Event(now, SeeAborted(f))) == Goes(Tick(y, now), f, Sent503)
  {
  }

  lemma JobRan(y: System, job: Job, now: nat)
    requires y.status == Serving && y.today <= DayOf(now) && job in y.running && job.flow < |y.flows|
    ensures var step := JobStep(y, job, None, false, false);
            Do(y, Works(job, now))
            == Tick(y, now).(ledger := step.after, running := y.running - {job},
                             succeeded := if step.result.Ok? then y.succeeded + {job} else y.succeeded)
  {
  }

  /** The attempt has been claimed and the marker submitted; the settlement is otherwise as it was. */
  ghost predicate Begun(y: System, z: System, f: nat, now: nat) {
    && At(y, f, Holding) && At(z, f, Marking) && z.today == DayOf(now) && |z.flows| == |y.flows|
    && z.flows[f].receipt == y.flows[f].receipt
    && MarkJob(f) in z.running && AbortJob(f) !in z.running + z.succeeded
    && z.limits == y.limits && SystemInv(z)
    && var s := y.flows[f].receipt.session;
       && s in y.ledger.settlements
       && OnlyRowOf(y.ledger, z.ledger, s, y.ledger.settlements[s].(attempt := Some(f)))
  }

  lemma RunFour(y: System, e0: Event, e1: Event, e2: Event, e3: Event)
    ensures Run(y, [e0] + [e1] + [e2] + [e3]) == Do(Do(Do(Do(y, e0), e1), e2), e3)
  {
    RunThree(y, e0, e1, e2);
    RunAppend(y, [e0] + [e1] + [e2], e3);
  }

  lemma BeginsDelivering(y: System, f: nat, now: nat)
    requires Holds(y, f, now)
    ensures Begun(y, Run(y, BeginDelivering(f, now)), f, now)
  {
    var s := y.flows[f].receipt.session;
    assert FlowOk(y, f);
    RunFour(y, Event(now, HandOver(f)), Event(now, SubmitBegin(f)), Works(BeginJob(f), now), Event(now, SeeBegun(f)));
    HandedOver(y, f, now);
    var y1 := Goes(Tick(y, now), f, Candidate);
    Submitted(y1, f, now);
    var y2 := Goes(y1, f, Beginning).(running := y.running + {BeginJob(f)});
    BeginOutcome(y.ledger, y.limits, s, f);
    JobRan(y2, BeginJob(f), now);
    var y3 := Do(y2, Works(BeginJob(f), now));
    SawBegun(y3, f, now);
    RunKeeps(y, BeginDelivering(f, now));
  }

  /**
   * A delivery nobody disturbs ends in a 204: from every system in which an exchange holds the receipt of a
   * settlement that pends, the events of a delivery without faults tell the client 204, with the bytes charged.
   */
  lemma DeliveryEndsIn204(y: System, f: nat, now: nat)
    requires Holds(y, f, now)
    ensures var z := Run(y, BeginDelivering(f, now) + [Works(MarkJob(f), now)] + [Event(now, SeeMarked(f))]);
            var receipt := y.flows[f].receipt;
            && Told204(z, f) && z.flows[f].receipt == receipt
            && receipt.session < |z.ledger.uploads| && DeliveryPossible(z.ledger, receipt.session)
            && z.ledger.uploads[receipt.session].actual == Some(receipt.actual)
            && z.ledger.uploads[receipt.session].state == Uploaded
  {
    var begin := BeginDelivering(f, now);
    BeginsDelivering(y, f, now);
    RunAppend(y, begin, Works(MarkJob(f), now));
    RunAppend(y, begin + [Works(MarkJob(f), now)], Event(now, SeeMarked(f)));
    EndsIn204(Run(y, begin), f, now);
    ChargedAsReceipt(y, f);
  }

  /** The receipt of an exchange says what its session is charged. */
  lemma ChargedAsReceipt(y: System, f: nat)
    requires SystemInv(y) && y.status == Serving && f < |y.flows|
    requires Deliverable(y.ledger, y.flows[f].receipt.session)
    ensures y.ledger.uploads[y.flows[f].receipt.session].actual == Some(y.flows[f].receipt.actual)
  {
    assert FlowOk(y, f);
    assert RowOk(y.ledger, y.flows[f].receipt.session, y.today);
  }

  lemma EndsIn204(y: System, f: nat, now: nat)
    requires At(y, f, Marking) && y.today <= DayOf(now) && MarkJob(f) in y.running
    requires var s := y.flows[f].receipt.session; Deliverable(y.ledger, s) && y.ledger.settlements[s].attempt == Some(f)
    ensures var z := Do(Do(y, Works(MarkJob(f), now)), Event(now, SeeMarked(f)));
            var s := y.flows[f].receipt.session;
            && Told204(z, f) && z.flows[f].receipt == y.flows[f].receipt
            && z.ledger == y.ledger.(settlements := y.ledger.settlements[s := y.ledger.settlements[s].(possible := true)])
  {
    MarkOutcome(y.ledger, y.limits, y.flows[f].receipt.session, f, None);
    JobRan(y, MarkJob(f), now);
    SawMarked(Do(y, Works(MarkJob(f), now)), f, now);
  }

  /** The connection that sent a 204 then acknowledges the settlement, and the charge has become final. */
  lemma DeliveredIsAcknowledged(y: System, f: nat, now: nat)
    requires SystemInv(y) && At(y, f, Sent204) && y.today <= DayOf(now)
    requires y.flows[f].receipt.session in y.ledger.settlements
    ensures var z := Do(y, Event(now, AckDelivered(f, None)));
            var receipt := y.flows[f].receipt;
            && Told204(z, f) && z.flows[f].phase == Acknowledged
            && z.ledger == y.ledger.(settlements := y.ledger.settlements - {receipt.session})
            && z.ledger.uploads[receipt.session].actual == Some(receipt.actual)
  {
    var s := y.flows[f].receipt.session;
    assert FlowOk(y, f);
    assert RowOk(y.ledger, s, y.today);
    AcknowledgeOutcome(y.ledger, y.limits, s, None);
  }

  /**
   * A marker that is not seen, whether it committed or not, and an abort that commits end in a 503 with the
   * charge given back; the abort commits whenever the usage row of the charge is there.
   */
  lemma AbortedDeliveryEndsIn503(y: System, f: nat, now: nat, committed: bool)
    requires Holds(y, f, now) && UsageKey(y.ledger, y.flows[f].receipt.session) in y.ledger.daily
    ensures var marked := if committed then [Works(MarkJob(f), now)] else [];
            var z := Run(y, BeginDelivering(f, now) + marked
                            + ([Event(now, GiveUp(f))] + [Works(AbortJob(f), now)] + [Event(now, SeeAborted(f))]));
            && Told503(z, f) && Compensated(z.ledger, y.flows[f].receipt.session)
  {
    var begin, marked := BeginDelivering(f, now), if committed then [Works(MarkJob(f), now)] else [];
    var rest := [Event(now, GiveUp(f))] + [Works(AbortJob(f), now)] + [Event(now, SeeAborted(f))];
    BeginsDelivering(y, f, now);
    var y4 := Run(y, begin);
    RunSplit(y, begin + marked, rest);
    if committed {
      RunAppend(y, begin, Works(MarkJob(f), now));
      JobRan(y4, MarkJob(f), now);
      MarkOutcome(y4.ledger, y.limits, y.flows[f].receipt.session, f, None);
    } else {
      assert begin + [] == begin;
    }
    RunKeeps(y, begin + marked);
    EndsIn503(Run(y, begin + marked), f, now);
  }

  lemma EndsIn503(y: System, f: nat, now: nat)
    requires SystemInv(y) && At(y, f, Marking) && y.today <= DayOf(now)
    requires var s := y.flows[f].receipt.session;
             && s in y.ledger.settlements && y.ledger.settlements[s].attempt == Some(f)
             && y.ledger.uploads[s].state == Uploaded && UsageKey(y.ledger, s) in y.ledger.daily
    ensures var z := Run(y, [Event(now, GiveUp(f))] + [Works(AbortJob(f), now)] + [Event(now, SeeAborted(f))]);
            Told503(z, f) && Compensated(z.ledger, y.flows[f].receipt.session)
  {
    var s := y.flows[f].receipt.session;
    RunThree(y, Event(now, GiveUp(f)), Works(AbortJob(f), now), Event(now, SeeAborted(f)));
    GaveUpMarking(y, f, now);
    var y1 := Do(y, Event(now, GiveUp(f)));
    AbortCommits(y.ledger, y.limits, s, f, y.today);
    JobRan(y1, AbortJob(f), now);
    var y2 := Do(y1, Works(AbortJob(f), now));
    SawAborted(y2, f, now);
  }

  /** An abort in time commits whenever the usage row of the charge is there. */
  lemma AbortCommits(l: Ledger, limits: Limits, s: nat, attempt: nat, day: nat)
    requires Inv(l, limits, day) && s in l.settlements && l.settlements[s].attempt == Some(attempt)
    requires UsageKey(l, s) in l.daily
    ensures var step := AbortDelivery(l, s, attempt, false, false); step.result.Ok? && Compensated(step.after, s)
  {
    AbortOutcome(l, limits, s, attempt, false, false, day);
    AbortSucceeds(l, limits, s, attempt, false, false, day);
  }

  // Acknowledgements outside an exchange.

  /** The periodic pass looks for marked rows without an attempt, and in no run is there one. */
  lemma PeriodicAcknowledgesNothing(limits: Limits, events: seq<Event>, now: nat, s: nat, fileError: Option<LimitError>)
    requires limits.Valid()
    ensures var y := Run(Fresh(limits), events);
            y.status == Serving ==> Do(y, Event(now, AckPeriodic(s, fileError))).ledger == y.ledger
  {
    var y := Run(Fresh(limits), events);
    FreshInv(limits);
    RunKeeps(Fresh(limits), events);
    if s in y.ledger.settlements {
      assert HasFlow(y, s);
      var f :| 0 <= f < |y.flows| && y.flows[f].receipt.session == s;
      assert FlowOk(y, f);
    }
  }

  /** The acknowledgements of some rows at start-up. */
  function AckEvents(rows: seq<nat>, now: nat): seq<Event> {
    if rows == [] then [] else AckEvents(rows[..|rows| - 1], now) + [Event(now, AckAtStart(rows[|rows| - 1], None))]
  }

  /** Marked rows of uploaded sessions. */
  ghost predicate AllMarked(l: Ledger) {
    forall s :: s in l.settlements ==> l.settlements[s].possible && s < |l.uploads| && l.uploads[s].state == Uploaded
  }

  /** Only the settlement rows of these sessions have gone. */
  ghost predicate RowsGone(l: Ledger, next: Ledger, rows: seq<nat>) {
    && next == l.(settlements := next.settlements)
    && forall s: nat :: Lookup(next.settlements, s) == if s in rows then None else Lookup(l.settlements, s)
  }

  lemma OneMoreGone(l: Ledger, middle: Ledger, rows: seq<nat>, s: nat)
    requires AllMarked(l) && RowsGone(l, middle, rows)
    ensures AllMarked(middle)
    ensures RowsGone(l, middle.(settlements := middle.settlements - {s}), rows + [s])
  {
    forall k: nat ensures Lookup(middle.settlements, k) == if k in rows then None else Lookup(l.settlements, k) {
    }
    forall k | k in middle.settlements ensures k in l.settlements && middle.settlements[k] == l.settlements[k] {
      assert Lookup(middle.settlements, k) == Lookup(l.settlements, k);
    }
    forall k: nat ensures k in rows + [s] <==> k in rows || k == s {
    }
  }

  /** Before the server listens, every marked row is acknowledged, whatever attempt it belongs to. */
  lemma {:induction false} StartAcknowledges(y: System, rows: seq<nat>, now: nat)
    requires y.status == Starting && y.today <= DayOf(now) && AllMarked(y.ledger)
    ensures var z := Run(y, AckEvents(rows, now));
            z.status == Starting && z.today <= DayOf(now) && RowsGone(y.ledger, z.ledger, rows)
    decreases |rows|
  {
    if rows != [] {
      var earlier, s := rows[..|rows| - 1], rows[|rows| - 1];
      StartAcknowledges(y, earlier, now);
      RunAppend(y, AckEvents(earlier, now), Event(now, AckAtStart(s, None)));
      OneMoreGone(y.ledger, Run(y, AckEvents(earlier, now)).ledger, earlier, s);
      OneAcknowledged(Run(y, AckEvents(earlier, now)), s, now);
      assert rows == earlier + [s];
    }
  }

  lemma OneAcknowledged(y: System, s: nat, now: nat)
    requires y.status == Starting && y.today <= DayOf(now) && AllMarked(y.ledger)
    ensures var z := Do(y, Event(now, AckAtStart(s, None)));
            && z.status == Starting && z.today == DayOf(now)
            && z.ledger == y.ledger.(settlements := y.ledger.settlements - {s})
  {
  }

  /**
   * A restart settles everything: once a database has been opened and its marked rows acknowledged no settlement
   * row is left, and each session whose delivery had been marked keeps its charge for good.
   */
  lemma RestartSettlesAll(y: System, limits: Limits, secrets: seq<nat>, files: FileAnswers, now: nat, rows: seq<nat>)
    requires SystemInv(y) && y.status == Down && y.today <= DayOf(now)
    requires Open(y.ledger, limits, secrets, now, files).result.Ok?
    requires forall s :: s in y.ledger.settlements && y.ledger.settlements[s].possible ==> s in rows
    ensures var z := Run(Do(y, Event(now, Reopen(limits, secrets, files))), AckEvents(rows, now));
            && z.ledger.settlements == map[]
            && (forall s :: s in y.ledger.settlements && y.ledger.settlements[s].possible ==>
                  s < |z.ledger.uploads| && z.ledger.uploads[s] == y.ledger.uploads[s])
            && (forall s :: s in y.ledger.settlements && !y.ledger.settlements[s].possible ==>
                  s < |z.ledger.uploads| && z.ledger.uploads[s].state == Expired && z.ledger.uploads[s].actual == None)
  {
    DownIsStored(y, DayOf(now));
    StoredOpens(y.ledger, limits, secrets, now, files);
    ReopenStarts(y, limits, secrets, files, now);
    var started := Do(y, Event(now, Reopen(limits, secrets, files)));
    OpenedIsMarked(y.ledger, started.ledger, limits, now);
    StartAcknowledges(started, rows, now);
    NothingLeft(started.ledger, Run(started, AckEvents(rows, now)).ledger, rows);
  }

  lemma ReopenStarts(y: System, limits: Limits, secrets: seq<nat>, files: FileAnswers, now: nat)
    requires y.status == Down && y.today <= DayOf(now) && Open(y.ledger, limits, secrets, now, files).result.Ok?
    ensures var z := Do(y, Event(now, Reopen(limits, secrets, files)));
            z.status == Starting && z.today == DayOf(now) && z.ledger == Open(y.ledger, limits, secrets, now, files).after
  {
  }

  lemma NothingLeft(l: Ledger, next: Ledger, rows: seq<nat>)
    requires RowsGone(l, next, rows) && forall s :: s in l.settlements ==> s in rows
    ensures next.settlements == map[] && next.uploads == l.uploads
  {
    forall s: nat ensures s !in next.settlements {
      assert Lookup(next.settlements, s) == if s in rows then None else Lookup(l.settlements, s);
    }
  }

  lemma DownIsStored(y: System, day: nat)
    requires SystemInv(y) && y.status == Down && y.today <= day
    ensures Stored(y.ledger, day)
  {
    forall s: nat | s < |y.ledger.uploads| ensures RowOk(y.ledger, s, day) {
      assert RowOk(y.ledger, s, y.today);
    }
  }

  lemma OpenedIsMarked(l: Ledger, next: Ledger, limits: Limits, now: nat)
    requires Stored(l, DayOf(now)) && Opened(l, next, now) && Inv(next, limits, DayOf(now))
    ensures AllMarked(next)
    ensures forall s :: s in next.settlements <==> s in l.settlements && l.settlements[s].possible
    ensures forall s :: s in l.settlements ==> s < |next.uploads|
    ensures forall s :: s in l.settlements && l.settlements[s].possible ==> next.uploads[s] == l.uploads[s]
    ensures forall s :: s in l.settlements && !l.settlements[s].possible ==>
              next.uploads[s].state == Expired && next.uploads[s].actual == None
  {
    forall s: nat ensures s in next.settlements <==> s in l.settlements && l.settlements[s].possible {
      assert Lookup(next.settlements, s) == if s in l.settlements && l.settlements[s].possible then Some(l.settlements[s]) else None;
    }
    forall s: nat | s in next.settlements ensures next.settlements[s].possible && next.uploads[s].state == Uploaded {
      assert Lookup(next.settlements, s) == Some(l.settlements[s]);
      assert RowOk(next, s, DayOf(now));
    }
    forall s | s in l.settlements && l.settlements[s].possible ensures next.uploads[s] == l.uploads[s] {
      assert RowOk(l, s, DayOf(now));
    }
  }
}
