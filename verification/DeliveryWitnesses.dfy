/**
 * Runs from an empty database that reach the states in which the program falls short: two empty uploads
 * that keep the server from ever opening again, a full batch of marked settlements with a pending one
 * behind it, and a lease that outlives its capability.
 */
module DeliveryWitnesses {
  import opened Prelude
  import opened Sums
  import opened LedgerTables
  import opened LedgerTransactions
  import opened LedgerAdmission
  import opened LedgerInvariant
  import opened LedgerRecovery
  import opened LedgerAdmissionInvariant
  import opened LedgerOutcomes
  import opened LedgerSteps
  import opened LedgerLeases
  import opened LedgerStarvation
  import opened Delivery
  import opened DeliverySafety
  import opened DeliveryOutcome
  import opened DeliveryProgress

  const LIMITS: Limits := Limits(10, 10, 2, 10, 0)

  const RESERVED: ReserveEnv := ReserveEnv(false, Ok(0), false, Ok(100), 0, Ok(0), Ok(100), None, false)

  const SETTLED: SettleEnv := SettleEnv(None, None, false)

  /** The n-th upload of the one client there is: one byte declared, a capability that lasts until `expiry`. */
  function Request(n: nat, expiry: nat): ReserveRequest {
    ReserveRequest(Some(0), Some(1), n, Some(expiry))
  }

  /** n sessions of one client, all over, without a byte charged. */
  ghost predicate AllEmpty(l: Ledger, n: nat) {
    && |l.uploads| == n
    && (forall s :: 0 <= s < n ==> !l.uploads[s].state.IsReserved())
    && (forall i, d :: Used(l.daily, i, d) == 0)
    && (forall t :: t in l.caps ==> t < n)
    && (if n == 0 then l.ids.hashes == map[] else (0, 0) in l.ids.hashes)
    && (forall s :: 0 <= s < n ==> (0, 0) in l.ids.hashes && l.uploads[s].identity == l.ids.hashes[(0, 0)])
  }

  lemma NothingHeld(l: Ledger, n: nat, identity: nat)
    requires AllEmpty(l, n)
    ensures TotalHeld(l.uploads) == 0 && TotalHeldBy(l.uploads, identity) == 0 && ActiveSessions(l.uploads, identity) == 0
  {
    SumZero(HeldColumn(l.uploads));
    SumZero(HeldByColumn(l.uploads, identity));
    SumZero(ActiveColumn(l.uploads, identity));
  }

  /** The identity the client has, or gets. */
  function ClientOf(l: Ledger): nat {
    if (0, 0) in l.ids.hashes then l.ids.hashes[(0, 0)] else l.ids.next
  }

  lemma ClientFound(l: Ledger)
    ensures FoundIdentities(l.ids.hashes, [0], 0) == if (0, 0) in l.ids.hashes then [l.ids.hashes[(0, 0)]] else []
  {
    var secrets: seq<nat> := [0];
    assert secrets[..0] == [];
    assert FoundIdentities(l.ids.hashes, [], 0) == [];
  }

  lemma ClientResolved(l: Ledger)
    ensures ResolveIdentity(l, [0], 0).Ok?
    ensures var resolved := ResolveIdentity(l, [0], 0).value;
            && resolved.identity == ClientOf(l)
            && (0, 0) in resolved.ledger.ids.hashes && resolved.ledger.ids.hashes[(0, 0)] == ClientOf(l)
            && resolved.ledger == l.(ids := resolved.ledger.ids)
  {
    ClientFound(l);
    var found := FoundIdentities(l.ids.hashes, [0], 0);
    if found != [] {
      assert found[1..] == [];
      assert MergeAll(l, found[0], []) == Ok(l);
    }
  }

  // One upload, transaction by transaction.

  /** The session just reserved. */
  ghost predicate IsReserved(l: Ledger, next: Ledger, n: nat, expiry: nat) {
    && next.uploads == l.uploads + [Upload(ClientOf(l), n, Reserved, 1, None, 0, Some(0), 0, None)]
    && next.settlements == l.settlements && next.daily == l.daily
    && next.caps == l.caps[n := Capability(n, expiry)]
    && (0, 0) in next.ids.hashes && next.ids.hashes[(0, 0)] == ClientOf(l)
  }

  lemma ReserveNext(l: Ledger, n: nat, expiry: nat)
    requires Inv(l, LIMITS, 0) && AllEmpty(l, n)
    ensures var step := Reserve(l, LIMITS, [0], Request(n, expiry), 0, RESERVED);
            step.result == Ok(n) && IsReserved(l, step.after, n, expiry) && Inv(step.after, LIMITS, 0)
  {
    ClientResolved(l);
    NotRefused(l, n, ResolveIdentity(l, [0], 0).value.ledger, expiry);
    ReserveKeepsInv(l, LIMITS, [0], Request(n, expiry), 0, RESERVED);
  }

  lemma NotRefused(l: Ledger, n: nat, resolved: Ledger, expiry: nat)
    requires Inv(l, LIMITS, 0) && AllEmpty(l, n) && resolved == l.(ids := resolved.ids)
    ensures RefusedByLimits(resolved, LIMITS, ClientOf(l), 1, 0).None?
    ensures RefusedLate(resolved, LIMITS, 1, Request(n, expiry), RESERVED).None?
  {
    NothingHeld(l, n, ClientOf(l));
    assert n !in l.caps;
  }

  /** The session just claimed, with a lease of the given length. */
  ghost predicate IsClaimed(l: Ledger, next: Ledger, n: nat, expiry: nat, lease: nat) {
    && next.uploads == l.uploads + [Upload(ClientOf(l), n, Receiving, 1, None, 0, Some(0), 0, Some(lease))]
    && next.settlements == l.settlements && next.daily == l.daily
    && next.caps == l.caps[n := Capability(n, expiry)]
    && (0, 0) in next.ids.hashes && next.ids.hashes[(0, 0)] == ClientOf(l)
  }

  lemma ClaimNext(l: Ledger, reserved: Ledger, n: nat, expiry: nat, seconds: nat)
    requires |l.uploads| == n && IsReserved(l, reserved, n, expiry) && Inv(reserved, LIMITS, 0)
    requires 0 < seconds <= expiry && seconds <= SQL_MAX
    ensures var step := ClaimLease(reserved, n, n, Duration(seconds, 0), 0);
            step.result.Ok? && IsClaimed(l, step.after, n, expiry, seconds) && Inv(step.after, LIMITS, 0)
  {
    ClaimLeaseKeepsInv(reserved, LIMITS, n, n, Duration(seconds, 0), 0, 0);
    var step := ClaimLease(reserved, n, n, Duration(seconds, 0), 0);
    assert step.after.uploads == l.uploads + [step.after.uploads[n]];
  }

  lemma SettleNext(l: Ledger, claimed: Ledger, n: nat, expiry: nat, lease: nat)
    requires AllEmpty(l, n) && IsClaimed(l, claimed, n, expiry, lease) && Inv(claimed, LIMITS, 0)
    ensures var step := Settle(claimed, LIMITS, n, n, 0, 0, SETTLED);
            && step.result == Ok(Receipt(n, ClientOf(l), 0, 0))
            && Inv(step.after, LIMITS, 0)
            && AllEmpty(step.after, n + 1)
            && step.after.settlements == l.settlements[n := Settlement(0, 0, 0, false, None)]
            && step.after.uploads[n].state == Uploaded && step.after.uploads[n].token == n
            && step.after.uploads[..n] == l.uploads
  {
    SettleEffect(claimed, LIMITS, n, n, 0, 0, SETTLED);
    var next := Settle(claimed, LIMITS, n, n, 0, 0, SETTLED).after;
    assert next.uploads[..n] == l.uploads;
    forall s | 0 <= s < n + 1
      ensures !next.uploads[s].state.IsReserved() && next.uploads[s].identity == next.ids.hashes[(0, 0)]
    {
      if s < n {
        assert next.uploads[s] == l.uploads[s];
      }
    }
  }

  // The same as events of the running service.

  function ReserveEvent(n: nat, expiry: nat): Event {
    Event(0, Serve(DoReserve([0], Request(n, expiry), RESERVED)))
  }

  function ClaimEvent(n: nat, seconds: nat): Event {
    Event(0, Serve(DoClaim(n, n, Duration(seconds, 0))))
  }

  function UploadEvents(n: nat): seq<Event> {
    [ReserveEvent(n, 100)] + [ClaimEvent(n, 1)] + [Event(0, DoSettle(n, n, 0, SETTLED))]
  }

  /** A serving system on day zero whose uploads so far were all empty. */
  ghost predicate ServesEmpty(y: System, n: nat) {
    y.status == Serving && y.limits == LIMITS && y.today == 0 && Inv(y.ledger, LIMITS, 0) && AllEmpty(y.ledger, n)
  }

  ghost predicate Uploaded1(y: System, z: System, n: nat) {
    && ServesEmpty(z, n + 1)
    && z.flows == y.flows + [Flow(Receipt(n, ClientOf(y.ledger), 0, 0), Holding)]
    && z.running == y.running && z.succeeded == y.succeeded
    && z.ledger.settlements == y.ledger.settlements[n := Settlement(0, 0, 0, false, None)]
    && z.ledger.uploads[n].state == Uploaded && z.ledger.uploads[n].token == n
    && z.ledger.uploads[..n] == y.ledger.uploads
  }

  /** One upload more. */
  lemma UploadRun(y: System, n: nat)
    requires ServesEmpty(y, n)
    ensures Uploaded1(y, Run(y, UploadEvents(n)), n)
  {
    var e0, e1 := ReserveEvent(n, 100), ClaimEvent(n, 1);
    var e2 := Event(0, DoSettle(n, n, 0, SETTLED));
    RunThree(y, e0, e1, e2);
    ReserveNext(y.ledger, n, 100);
    var reserved := Reserve(y.ledger, LIMITS, [0], Request(n, 100), 0, RESERVED).after;
    ReservedEvent(y, n, 100);
    ClaimNext(y.ledger, reserved, n, 100, 1);
    var claimed := ClaimLease(reserved, n, n, Duration(1, 0), 0).after;
    SettleNext(y.ledger, claimed, n, 100, 1);
    ClaimedEvent(y.(ledger := reserved), n, 1);
    SettledEvent(y.(ledger := claimed), n, Receipt(n, ClientOf(y.ledger), 0, 0));
  }

  lemma ReservedEvent(y: System, n: nat, expiry: nat)
    requires y.status == Serving && y.today == 0 && y.limits == LIMITS
    ensures Do(y, ReserveEvent(n, expiry))
            == y.(ledger := Reserve(y.ledger, LIMITS, [0], Request(n, expiry), 0, RESERVED).after)
  {
  }

  lemma ClaimedEvent(y: System, n: nat, seconds: nat)
    requires y.status == Serving && y.today == 0
    ensures Do(y, ClaimEvent(n, seconds)) == y.(ledger := ClaimLease(y.ledger, n, n, Duration(seconds, 0), 0).after)
  {
  }

  lemma SettledEvent(y: System, n: nat, receipt: Receipt)
    requires y.status == Serving && y.today == 0 && y.limits == LIMITS
    requires Settle(y.ledger, LIMITS, n, n, 0, 0, SETTLED).result == Ok(receipt)
    ensures Do(y, Event(0, DoSettle(n, n, 0, SETTLED)))
            == y.(ledger := Settle(y.ledger, LIMITS, n, n, 0, 0, SETTLED).after, flows := y.flows + [Flow(receipt, Holding)])
  {
  }

  lemma FreshServes()
    ensures ServesEmpty(Fresh(LIMITS), 0)
  {
    EmptyLedgerInv(LIMITS, 0);
  }

  /** One upload on an empty database, delivered without a fault, is answered 204. */
  lemma OneUploadIsAnswered()
    ensures Told204(Run(Fresh(LIMITS), UploadEvents(0) + (BeginDelivering(0, 0) + [Works(MarkJob(0), 0)] + [Event(0, SeeMarked(0))])), 0)
  {
    FreshServes();
    var y := Fresh(LIMITS);
    UploadRun(y, 0);
    FreshInv(LIMITS);
    RunKeeps(y, UploadEvents(0));
    DeliveryEndsIn204(Run(y, UploadEvents(0)), 0, 0);
    RunSplit(y, UploadEvents(0), BeginDelivering(0, 0) + [Works(MarkJob(0), 0)] + [Event(0, SeeMarked(0))]);
  }

  // Two empty uploads.

  /** Two empty uploads of one client, then a crash. */
  function TwoEmptyUploads(): seq<Event> {
    UploadEvents(0) + UploadEvents(1) + [Event(0, Crash)]
  }

  /** A crashed system whose database no start-up can recover. */
  ghost predicate Stuck(y: System) {
    && y.status == Down
    && Recover(y.ledger, None, MAX_STARTUP_SETTLEMENT_RECOVERIES, true, None).result.Err?
  }

  /** The ledger after the two uploads. */
  lemma AfterTwo()
    ensures var y := Run(Fresh(LIMITS), UploadEvents(0) + UploadEvents(1));
            && ServesEmpty(y, 2)
            && y.ledger.settlements == map[0 := Settlement(0, 0, 0, false, None)][1 := Settlement(0, 0, 0, false, None)]
  {
    FreshServes();
    var y0 := Fresh(LIMITS);
    UploadRun(y0, 0);
    var y1 := Run(y0, UploadEvents(0));
    UploadRun(y1, 1);
    RunSplit(y0, UploadEvents(0), UploadEvents(1));
    assert y0.ledger.settlements[0 := Settlement(0, 0, 0, false, None)] == map[0 := Settlement(0, 0, 0, false, None)];
  }

  lemma CrashedEvent(y: System)
    requires y.today == 0
    ensures Do(y, Event(0, Crash)).status == Down && Do(y, Event(0, Crash)).ledger == y.ledger
  {
  }

  lemma StuckAfterTwo()
    ensures var y := Run(Fresh(LIMITS), TwoEmptyUploads());
            && Stuck(y)
            && Recover(y.ledger, None, MAX_STARTUP_SETTLEMENT_RECOVERIES, true, None).result == Err(AccountingInvariant)
  {
    AfterTwo();
    var y := Run(Fresh(LIMITS), UploadEvents(0) + UploadEvents(1));
    RunAppend(Fresh(LIMITS), UploadEvents(0) + UploadEvents(1), Event(0, Crash));
    CrashedEvent(y);
    TwoPend(y.ledger);
  }

  lemma TwoPend(l: Ledger)
    requires l.settlements == map[0 := Settlement(0, 0, 0, false, None)][1 := Settlement(0, 0, 0, false, None)]
    requires Inv(l, LIMITS, 0) && AllEmpty(l, 2)
    ensures Recover(l, None, MAX_STARTUP_SETTLEMENT_RECOVERIES, true, None).result == Err(AccountingInvariant)
  {
    EmptyPair(l, LIMITS, 0, 0, 1);
    FewDue(l, 2);
  }

  /** There are no more due rows than sessions. */
  lemma FewDue(l: Ledger, n: nat)
    requires |l.uploads| == n
    ensures |DueRows(l.settlements, None, None, |l.uploads|)| <= n
  {
    var rows := DueRows(l.settlements, None, None, n);
    DueRowsOrdered(l.settlements, None, None, n);
    var all: seq<nat> := seq(n, k => k);
    forall s: nat | s in rows ensures s in all {
      assert all[s] == s;
    }
    DistinctSubset(rows, all);
  }

  /** Nothing happens to a stuck system but the passing of time, whatever limits and secrets a restart is given. */
  lemma {:induction false} StuckForever(y: System, later: seq<Event>)
    requires Stuck(y)
    ensures Stuck(Run(y, later)) && Run(y, later).ledger == y.ledger
    decreases |later|
  {
    if later != [] {
      StuckForever(y, later[..|later| - 1]);
      StuckStep(Run(y, later[..|later| - 1]), later[|later| - 1]);
    }
  }

  lemma StuckStep(y: System, e: Event)
    requires Stuck(y)
    ensures Do(y, e).status == Down && Do(y, e).ledger == y.ledger
  {
    match e.action
    case Reopen(limits, secrets, files) =>
      assert Open(y.ledger, limits, secrets, e.now, files).result.Err?;
    case _ =>
  }

  /**
   * Recovery is not total, and the server then never opens again: after two empty uploads of one client on
   * one day, both unacknowledged, and a crash, no restart succeeds, whatever happens and whatever it is given.
   */
  lemma EmptyUploadsBlockEveryRestart(later: seq<Event>)
    ensures Run(Fresh(LIMITS), TwoEmptyUploads() + later).status == Down
  {
    StuckAfterTwo();
    RunSplit(Fresh(LIMITS), TwoEmptyUploads(), later);
    StuckForever(Run(Fresh(LIMITS), TwoEmptyUploads()), later);
  }

  // A full batch of marked settlements and a pending one behind it.

  function MarkEvents(n: nat): seq<Event> {
    [Event(0, HandOver(n))] + [Event(0, SubmitBegin(n))] + [Event(0, RunJob(BeginJob(n), None, false, false))]
    + [Event(0, SeeBegun(n))] + [Event(0, RunJob(MarkJob(n), None, false, false))]
  }

  /** The last exchange has its receipt, and nothing has been done with it. */
  ghost predicate HasReceipt(y: System, n: nat) {
    && ServesEmpty(y, n + 1) && |y.flows| == n + 1 && y.running == {}
    && y.flows[n].receipt.session == n && y.flows[n].phase == Holding
    && y.ledger.uploads[n].state == Uploaded
    && n in y.ledger.settlements && y.ledger.settlements[n] == Settlement(0, 0, 0, false, None)
  }

  /** The exchange up to the claim of its delivery attempt. */
  lemma BeginRun(y: System, n: nat)
    requires HasReceipt(y, n)
    ensures var events := [Event(0, HandOver(n))] + [Event(0, SubmitBegin(n))] + [Event(0, RunJob(BeginJob(n), None, false, false))];
            Run(y, events) == Goes(y, n, Beginning).(
              ledger := BeginDelivery(y.ledger, n, n).after, succeeded := y.succeeded + {BeginJob(n)})
  {
    RunThree(y, Event(0, HandOver(n)), Event(0, SubmitBegin(n)), Event(0, RunJob(BeginJob(n), None, false, false)));
    HandedEvent(y, n);
    SubmittedEvent(Goes(y, n, Candidate), n);
    assert Goes(Goes(y, n, Candidate), n, Beginning).flows == Goes(y, n, Beginning).flows;
    BegunEvent(Goes(y, n, Beginning).(running := {BeginJob(n)}), n);
  }

  lemma HandedEvent(y: System, n: nat)
    requires y.status == Serving && y.today == 0 && n < |y.flows| && y.flows[n].phase == Holding
    ensures Do(y, Event(0, HandOver(n))) == Goes(y, n, Candidate)
  {
  }

  lemma SubmittedEvent(y: System, n: nat)
    requires y.status == Serving && y.today == 0 && n < |y.flows| && y.flows[n].phase == Candidate && y.running == {}
    ensures Do(y, Event(0, SubmitBegin(n))) == Goes(y, n, Beginning).(running := {BeginJob(n)})
  {
    assert y.running + {BeginJob(n)} == {BeginJob(n)};
  }

  lemma BegunEvent(y: System, n: nat)
    requires y.status == Serving && y.today == 0 && n < |y.flows| && y.flows[n].receipt.session == n
    requires y.running == {BeginJob(n)} && BeginDelivery(y.ledger, n, n).result.Ok?
    ensures Do(y, Event(0, RunJob(BeginJob(n), None, false, false)))
            == y.(ledger := BeginDelivery(y.ledger, n, n).after, running := {}, succeeded := y.succeeded + {BeginJob(n)})
  {
    assert y.running - {BeginJob(n)} == {};
  }

  lemma MarkedEvent(y: System, n: nat)
    requires y.status == Serving && y.today == 0 && n < |y.flows| && y.flows[n].receipt.session == n
    requires y.running == {MarkJob(n)} && MarkDelivery(y.ledger, n, n, None).result.Ok?
    ensures Do(y, Event(0, RunJob(MarkJob(n), None, false, false)))
            == y.(ledger := MarkDelivery(y.ledger, n, n, None).after, running := {}, succeeded := y.succeeded + {MarkJob(n)})
  {
    assert y.running - {MarkJob(n)} == {};
  }

  lemma SeenEvent(y: System, n: nat)
    requires y.status == Serving && y.today == 0 && n < |y.flows| && y.flows[n].phase == Beginning
    requires y.running == {} && BeginJob(n) in y.succeeded
    ensures Do(y, Event(0, SeeBegun(n))) == Goes(y, n, Marking).(running := {MarkJob(n)})
  {
    assert y.running + {MarkJob(n)} == {MarkJob(n)};
  }

  /** Marking the delivery of the last upload. */
  lemma MarkRun(y: System, n: nat)
    requires HasReceipt(y, n)
    ensures var z := Run(y, MarkEvents(n));
            && ServesEmpty(z, n + 1) && |z.flows| == n + 1 && z.running == {}
            && z.ledger == y.ledger.(settlements := y.ledger.settlements[n := Settlement(0, 0, 0, true, Some(n))])
  {
    var e3, e4 := Event(0, SeeBegun(n)), Event(0, RunJob(MarkJob(n), None, false, false));
    var begun := [Event(0, HandOver(n))] + [Event(0, SubmitBegin(n))] + [Event(0, RunJob(BeginJob(n), None, false, false))];
    BeginRun(y, n);
    RunAppend(y, begun, e3);
    RunAppend(y, begun + [e3], e4);
    var y3 := Run(y, begun);
    SeenEvent(y3, n);
    MarkedEvent(Goes(y3, n, Marking).(running := {MarkJob(n)}), n);
    MarkedLedger(y.ledger, n);
  }

  lemma MarkedLedger(l: Ledger, n: nat)
    requires Inv(l, LIMITS, 0) && AllEmpty(l, n + 1) && l.uploads[n].state == Uploaded
    requires n in l.settlements && l.settlements[n] == Settlement(0, 0, 0, false, None)
    ensures var begun := BeginDelivery(l, n, n); var marked := MarkDelivery(begun.after, n, n, None);
            && begun.result.Ok? && marked.result.Ok?
            && marked.after == l.(settlements := l.settlements[n := Settlement(0, 0, 0, true, Some(n))])
            && Inv(marked.after, LIMITS, 0) && AllEmpty(marked.after, n + 1)
  {
    BeginOutcome(l, LIMITS, n, n);
    MarkOutcome(BeginDelivery(l, n, n).after, LIMITS, n, n, None);
  }

  /** n empty uploads, each with a marked settlement nobody has acknowledged. */
  function MarkedUploads(n: nat): seq<Event> {
    if n == 0 then [] else MarkedUploads(n - 1) + UploadEvents(n - 1) + MarkEvents(n - 1)
  }

  ghost predicate AllMarked(y: System, n: nat) {
    && ServesEmpty(y, n) && |y.flows| == n && y.running == {}
    && forall k: nat :: Lookup(y.ledger.settlements, k) == if k < n then Some(Settlement(0, 0, 0, true, Some(k))) else None
  }

  lemma MarkedStep(y: System, n: nat)
    requires AllMarked(y, n)
    ensures AllMarked(Run(Run(y, UploadEvents(n)), MarkEvents(n)), n + 1)
  {
    UploadRun(y, n);
    var z := Run(y, UploadEvents(n));
    assert HasReceipt(z, n);
    MarkRun(z, n);
    OneMoreMarked(y.ledger.settlements, z.ledger.settlements, n);
  }

  lemma OneMoreMarked(settlements: map<nat, Settlement>, pending: map<nat, Settlement>, n: nat)
    requires forall k: nat :: Lookup(settlements, k) == if k < n then Some(Settlement(0, 0, 0, true, Some(k))) else None
    requires pending == settlements[n := Settlement(0, 0, 0, false, None)]
    ensures var marked := pending[n := Settlement(0, 0, 0, true, Some(n))];
            forall k: nat :: Lookup(marked, k) == if k < n + 1 then Some(Settlement(0, 0, 0, true, Some(k))) else None
  {
    var marked := pending[n := Settlement(0, 0, 0, true, Some(n))];
    forall k: nat
      ensures Lookup(marked, k) == if k < n + 1 then Some(Settlement(0, 0, 0, true, Some(k))) else None
    {
      assert Lookup(settlements, k) == if k < n then Some(Settlement(0, 0, 0, true, Some(k))) else None;
    }
  }

  lemma {:induction false} MarkedRun(n: nat)
    ensures AllMarked(Run(Fresh(LIMITS), MarkedUploads(n)), n)
  {
    var y0 := Fresh(LIMITS);
    if n == 0 {
      FreshServes();
      assert MarkedUploads(n) == [];
    } else {
      MarkedRun(n - 1);
      RunSplit(y0, MarkedUploads(n - 1), UploadEvents(n - 1));
      RunSplit(y0, MarkedUploads(n - 1) + UploadEvents(n - 1), MarkEvents(n - 1));
      MarkedStep(Run(y0, MarkedUploads(n - 1)), n - 1);
      OneMoreUpload(n);
    }
  }

  lemma OneMoreUpload(n: nat)
    requires n > 0
    ensures MarkedUploads(n) == MarkedUploads(n - 1) + UploadEvents(n - 1) + MarkEvents(n - 1)
  {
  }

  function Below(n: nat): set<nat> {
    if n == 0 then {} else Below(n - 1) + {n - 1}
  }

  lemma {:induction false} BelowAre(n: nat)
    ensures |Below(n)| == n
    ensures forall k: nat :: k in Below(n) <==> k < n
  {
    if n > 0 {
      BelowAre(n - 1);
    }
  }

  /** As many marked uploads as a batch holds, and one more upload whose settlement is pending. */
  function FullBatchAndOne(): seq<Event> {
    MarkedUploads(MAX_CLEANUP_JOBS_PER_PASS) + UploadEvents(MAX_CLEANUP_JOBS_PER_PASS)
  }

  lemma OneWaits(n: nat, y: System)
    requires AllMarked(y, n)
    ensures var z := Run(y, UploadEvents(n));
            && ServesEmpty(z, n + 1)
            && forall k: nat :: Lookup(z.ledger.settlements, k)
                 == if k < n then Some(Settlement(0, 0, 0, true, Some(k)))
                    else if k == n then Some(Settlement(0, 0, 0, false, None)) else None
  {
    UploadRun(y, n);
  }

  lemma MarkedIsFull(l: Ledger, n: nat)
    requires n == MAX_CLEANUP_JOBS_PER_PASS
    requires forall k: nat :: Lookup(l.settlements, k)
               == if k < n then Some(Settlement(0, 0, 0, true, Some(k)))
                  else if k == n then Some(Settlement(0, 0, 0, false, None)) else None
    ensures Starving(l, Below(n), n) && Pending(l, n)
    ensures forall b :: b in Below(n) ==> l.settlements[b].createdAt == 0
  {
    BelowAre(n);
    assert Lookup(l.settlements, n) == Some(Settlement(0, 0, 0, false, None));
    forall b | b in Below(n) ensures b in l.settlements && l.settlements[b] == Settlement(0, 0, 0, true, Some(b)) {
      assert Lookup(l.settlements, b) == Some(Settlement(0, 0, 0, true, Some(b)));
    }
    forall b, k | b in Below(n) && k in l.settlements && k !in Below(n) ensures Before(l.settlements, b, k) {
      assert Lookup(l.settlements, k) == Some(l.settlements[k]);
      assert k == n;
    }
  }

  /**
   * Periodic recovery need not reach a pending settlement: there is a run after which, whatever transactions
   * follow later, any number of reconciliations among them, the pending settlement is not given back as long
   * as nobody acknowledges or aborts one of the marked settlements before it, or ends that very settlement.
   */
  lemma MarkedRowsStarveThePending(steps: seq<Timed>)
    requires Orderly(steps, 0)
    requires forall i :: 0 <= i < |steps| ==>
               0 < steps[i].now
               && LeavesWaiting(steps[i].step, Below(MAX_CLEANUP_JOBS_PER_PASS), MAX_CLEANUP_JOBS_PER_PASS)
    ensures var y := Run(Fresh(LIMITS), FullBatchAndOne());
            var s := MAX_CLEANUP_JOBS_PER_PASS;
            && Pending(y.ledger, s)
            && s in After(y.ledger, LIMITS, steps).settlements
            && s < |After(y.ledger, LIMITS, steps).uploads|
            && After(y.ledger, LIMITS, steps).uploads[s].actual.Some?
  {
    var n := MAX_CLEANUP_JOBS_PER_PASS;
    MarkedRun(n);
    RunSplit(Fresh(LIMITS), MarkedUploads(n), UploadEvents(n));
    OneWaits(n, Run(Fresh(LIMITS), MarkedUploads(n)));
    var l := Run(Fresh(LIMITS), FullBatchAndOne()).ledger;
    MarkedIsFull(l, n);
    StarvesThroughout(l, LIMITS, steps, 0, Below(n), n);
  }

  // A lease that outlives its capability.

  const GROWN: ExpandEnv := ExpandEnv(None, Ok(100), None, Ok(100))

  /** A capability of ten seconds, a lease of five, and an expansion that asks for thirty. */
  function OverlongLease(): seq<Event> {
    [ReserveEvent(0, 10)] + [ClaimEvent(0, 5)] + [Event(0, Serve(DoExpand(0, 0, 2, Some(Duration(30, 0)), GROWN)))]
  }

  lemma ExpandedEvent(y: System)
    requires y.status == Serving && y.today == 0 && y.limits == LIMITS
    ensures Do(y, Event(0, Serve(DoExpand(0, 0, 2, Some(Duration(30, 0)), GROWN))))
            == y.(ledger := Expand(y.ledger, LIMITS, 0, 0, 2, Some(Duration(30, 0)), 0, GROWN).after)
  {
  }

  lemma ExpandedLedger(l: Ledger, claimed: Ledger)
    requires AllEmpty(l, 0) && IsClaimed(l, claimed, 0, 10, 5) && Inv(claimed, LIMITS, 0)
    ensures var step := Expand(claimed, LIMITS, 0, 0, 2, Some(Duration(30, 0)), 0, GROWN);
            && step.result == Ok(2) && |step.after.uploads| == 1
            && step.after.uploads[0].lease == Some(30) && step.after.uploads[0].state == Receiving
            && step.after.uploads[0].token == 0 && step.after.caps == claimed.caps
  {
    var us := claimed.uploads;
    assert us == [us[0]] && l.uploads == [];
    OneHolds(us, us[0].identity);
    ExpandOutcome(claimed, LIMITS, 0, 0, 2, Some(Duration(30, 0)), 0, GROWN);
    StoredLease(claimed, LIMITS, 0, 0, 2, Duration(30, 0), 0, GROWN);
  }

  lemma OneHolds(uploads: seq<Upload>, identity: nat)
    requires |uploads| == 1 && uploads[0].state == Receiving && uploads[0].reserved == 1
    ensures TotalHeld(uploads) == 1 && TotalHeldBy(uploads, identity) <= 1
  {
    assert HeldColumn(uploads)[..0] == [] && HeldByColumn(uploads, identity)[..0] == [];
    assert Sum(HeldColumn(uploads)[..0]) == 0 == Sum(HeldByColumn(uploads, identity)[..0]);
  }

  /** What the three events leave. */
  ghost predicate HasOverlong(l: Ledger) {
    && |l.uploads| == 1 && l.uploads[0].state == Receiving && l.uploads[0].token == 0
    && l.uploads[0].lease == Some(30)
    && 0 in l.caps && l.caps[0] == Capability(0, 10)
    && !LeasesFit(l)
  }

  lemma OverlongSteps(y: System)
    requires ServesEmpty(y, 0)
    ensures HasOverlong(Do(Do(Do(y, ReserveEvent(0, 10)), ClaimEvent(0, 5)),
                           Event(0, Serve(DoExpand(0, 0, 2, Some(Duration(30, 0)), GROWN)))).ledger)
  {
    ReserveNext(y.ledger, 0, 10);
    ReservedEvent(y, 0, 10);
    var reserved := Reserve(y.ledger, LIMITS, [0], Request(0, 10), 0, RESERVED).after;
    ClaimNext(y.ledger, reserved, 0, 10, 5);
    ClaimedEvent(y.(ledger := reserved), 0, 5);
    var claimed := ClaimLease(reserved, 0, 0, Duration(5, 0), 0).after;
    ExpandedEvent(y.(ledger := claimed));
    ExpandedLedger(y.ledger, claimed);
    Outlives(Expand(claimed, LIMITS, 0, 0, 2, Some(Duration(30, 0)), 0, GROWN).after);
  }

  lemma Outlives(l: Ledger)
    requires |l.uploads| == 1 && l.uploads[0].state == Receiving && l.uploads[0].token == 0
    requires l.uploads[0].lease == Some(30) && 0 in l.caps && l.caps[0] == Capability(0, 10)
    ensures HasOverlong(l)
  {
    assert !LeaseFits(l, 0);
  }

  /** A run in which a lease of thirty seconds is stored under a capability of ten. */
  lemma LeaseOutlivesCapability()
    ensures HasOverlong(Run(Fresh(LIMITS), OverlongLease()).ledger)
  {
    FreshServes();
    var y := Fresh(LIMITS);
    RunThree(y, ReserveEvent(0, 10), ClaimEvent(0, 5), Event(0, Serve(DoExpand(0, 0, 2, Some(Duration(30, 0)), GROWN))));
    OverlongSteps(y);
  }
}
