/**
 * A run from an empty database in which a settlement cannot be taken back: between settlement and compensation
 * the address is looked up under two secrets and its two identities are merged.
 */
module MergeWitnesses {
  import opened Prelude
  import opened Sums
  import opened LedgerTables
  import opened LedgerTransactions
  import opened LedgerAdmission
  import opened LedgerInvariant
  import opened LedgerAdmissionInvariant
  import opened LedgerOutcomes
  import opened LedgerSteps
  import opened Delivery
  import opened DeliveryOutcome
  import opened DeliveryProgress
  import opened DeliveryWitnesses

  const NO_FAULTS: FileAnswers := FileAnswers(map[], None)

  /** A process that serves, with no storage job under way, on day zero. */
  function Server(l: Ledger, flows: seq<Flow>): System {
    System(l, LIMITS, 0, Serving, flows, {}, {})
  }

  // The events.

  function ReserveUnder(secrets: seq<nat>, n: nat): Event {
    Event(0, Serve(DoReserve(secrets, Request(n, 100), RESERVED)))
  }

  /** The process dies, and another one opens the database with other secrets. */
  function Restart(secrets: seq<nat>): seq<Event> {
    [Event(0, Crash)] + [Event(0, Reopen(LIMITS, secrets, NO_FAULTS))] + [Event(0, Listen)]
  }

  /** A session under the first secret, given up at once, which leaves the address an identity. */
  function FirstEra(): seq<Event> {
    [ReserveUnder([0], 0)] + [Event(0, Serve(DoExpire(0, 0)))]
  }

  /** The upload under both secrets of a session reserved under the second. */
  function UploadOne(): seq<Event> {
    [Event(0, Serve(DoClaim(1, 1, Duration(50, 0))))] + [Event(0, DoSettle(1, 1, 1, SETTLED))]
  }

  function SettledUnderTwo(): seq<Event> {
    FirstEra() + Restart([1]) + [ReserveUnder([1], 1)] + Restart([0, 1]) + UploadOne()
  }

  // The tables along the way.

  /** One client whose sessions hold nothing and have been charged nothing, and no settlement. */
  ghost predicate Idle(l: Ledger, n: nat) {
    && Inv(l, LIMITS, 0) && |l.uploads| == n && l.settlements == map[] && l.daily == map[]
    && (forall s :: 0 <= s < n ==> !l.uploads[s].state.IsReserved())
    && (forall t :: t in l.caps ==> t < n)
  }

  /** The last session, with an identity and a token of its own, is reserved; the others are as they were. */
  ghost predicate ReservedLast(l: Ledger, next: Ledger, secret: nat) {
    var n := |l.uploads|;
    && next.uploads == l.uploads + [Upload(l.ids.next, n, Reserved, 1, None, 0, Some(0), 0, None)]
    && next.settlements == l.settlements && next.daily == l.daily
    && next.caps == l.caps[n := Capability(n, 100)]
    && next.ids.hashes == l.ids.hashes[(secret, 0) := l.ids.next]
  }

  /** An address that no hash under this secret names gets a new identity. */
  lemma NewIdentity(l: Ledger, secret: nat)
    requires (secret, 0) !in l.ids.hashes
    ensures ResolveIdentity(l, [secret], 0)
            == Ok(Resolved(l.ids.next, l.(ids := Identities(l.ids.known + {l.ids.next}, l.ids.next + 1,
                                                            l.ids.hashes[(secret, 0) := l.ids.next]))))
  {
    assert [secret][..0] == [];
    assert FoundIdentities(l.ids.hashes, [], 0) == [];
    assert WithHashes(l.ids.hashes, [secret], 0, l.ids.next) == l.ids.hashes[(secret, 0) := l.ids.next];
  }

  lemma IdleHoldsNothing(l: Ledger, n: nat, i: nat)
    requires Idle(l, n)
    ensures TotalHeld(l.uploads) == 0 && TotalHeldBy(l.uploads, i) == 0 && ActiveSessions(l.uploads, i) == 0
  {
    SumZero(HeldColumn(l.uploads));
    SumZero(HeldByColumn(l.uploads, i));
    SumZero(ActiveColumn(l.uploads, i));
  }

  /** A reservation once the address has been looked up and nothing refuses it. */
  lemma Reserves(l: Ledger, secrets: seq<nat>, n: nat, identity: nat, found: Ledger)
    requires ResolveIdentity(l, secrets, 0) == Ok(Resolved(identity, found))
    requires RefusedByLimits(found, LIMITS, identity, 1, 0).None? && n !in found.caps
    ensures Reserve(l, LIMITS, secrets, Request(n, 100), 0, RESERVED)
            == Step(Ok(|found.uploads|), Admitted(found, identity, 1, Request(n, 100), 0, RESERVED))
  {
  }

  lemma ReserveNew(l: Ledger, n: nat, secret: nat)
    requires Idle(l, n) && (secret, 0) !in l.ids.hashes
    ensures var step := Reserve(l, LIMITS, [secret], Request(n, 100), 0, RESERVED);
            step.result == Ok(n) && ReservedLast(l, step.after, secret) && Inv(step.after, LIMITS, 0)
  {
    AdmitsNew(l, n, secret);
    ReserveKeepsInv(l, LIMITS, [secret], Request(n, 100), 0, RESERVED);
  }

  lemma AdmitsNew(l: Ledger, n: nat, secret: nat)
    requires Idle(l, n) && (secret, 0) !in l.ids.hashes
    ensures var step := Reserve(l, LIMITS, [secret], Request(n, 100), 0, RESERVED);
            step.result == Ok(n) && ReservedLast(l, step.after, secret)
  {
    NewIdentity(l, secret);
    IdleHoldsNothing(l, n, l.ids.next);
    Reserves(l, [secret], n, l.ids.next, ResolveIdentity(l, [secret], 0).value.ledger);
  }

  /** The client gives the session up. */
  lemma GiveUpLast(l: Ledger, reserved: Ledger, n: nat, secret: nat)
    requires Idle(l, n) && ReservedLast(l, reserved, secret) && Inv(reserved, LIMITS, 0)
    ensures var step := Expire(reserved, n, n);
            step.result == Ok(()) && Idle(step.after, n + 1) && step.after.ids == reserved.ids
  {
    ExpireOutcome(reserved, LIMITS, n, n, 0);
    var next := Expire(reserved, n, n).after;
    forall s | 0 <= s < n + 1 ensures !next.uploads[s].state.IsReserved() {
      assert s < n ==> reserved.uploads[s] == l.uploads[s];
    }
    forall t | t in next.caps ensures t < n + 1 {
      assert t != n ==> Lookup(next.caps, t) == Lookup(reserved.caps, t);
    }
  }

  lemma SomeElement(s: seq<nat>)
    requires s != []
    ensures exists k: nat :: k in s
  {
    assert s[0] in s;
  }

  /** A database nobody has settled in, without abandoned sessions, opens as it is. */
  lemma OpensUnchanged(l: Ledger, secrets: seq<nat>)
    requires Inv(l, LIMITS, 0) && l.settlements == map[]
    requires forall k: nat :: k < |l.uploads| ==> !IsAbandoned(l.uploads[k], k, l.caps, 0) && l.uploads[k].reserved <= LIMITS.maxFileBytes
    requires 0 < |secrets| <= 4 && SecretsRetained(l, secrets, 0)
    ensures Open(l, LIMITS, secrets, 0, NO_FAULTS) == Step(Ok(()), l)
  {
    var due, gone := DueRows(l.settlements, None, None, |l.uploads|), AbandonedRows(l.uploads, l.caps, 0, |l.uploads|);
    if due != [] { SomeElement(due); }
    if gone != [] { SomeElement(gone); }
    assert RecoverRows(l, []) == Step(Ok(0), l) && ExpireRows(l, [], {}) == Step(Ok(()), l);
    Validates(l, LIMITS, secrets, 0, NO_FAULTS);
  }

  /** Tables within the limits pass the start-up tests and are left as they are. */
  lemma Validates(l: Ledger, limits: Limits, secrets: seq<nat>, now: nat, files: FileAnswers)
    requires Inv(l, limits, DayOf(now)) && SecretsRetained(l, secrets, DayOf(now)) && files.errors == map[] && files.margin.None?
    requires forall k: nat :: k < |l.uploads| ==> l.uploads[k].reserved <= limits.maxFileBytes
    ensures ValidateStartup(l, limits, secrets, now, files) == Step(Ok(()), l)
  {
    StillFit(l, limits, DayOf(now));
    assert FirstFileError(l.uploads, limits.maxFileBytes, files.errors, |l.uploads|).None?;
  }

  lemma StillFit(l: Ledger, limits: Limits, day: nat)
    requires QuotaOk(l, limits, day)
    ensures CommitmentsFit(l, limits, day)
  {
    forall key | key in l.daily && key.1 == day ensures l.daily[key] <= limits.dailyQuotaBytes {
      assert Committed(l, key.0, day) <= limits.dailyQuotaBytes;
    }
    forall k | 0 <= k < |l.uploads|
      ensures ActiveSessions(l.uploads, l.uploads[k].identity) <= limits.maxActiveSessions
      ensures Committed(l, l.uploads[k].identity, day) <= limits.dailyQuotaBytes
    {
      assert Committed(l, l.uploads[k].identity, day) <= limits.dailyQuotaBytes;
    }
  }

  /** Session n has been uploaded with one byte, which pends; the others are as they were. */
  ghost predicate UploadedLast(l: Ledger, next: Ledger, n: nat) {
    && Inv(next, LIMITS, 0) && |next.uploads| == |l.uploads| == n + 1 && next.ids == l.ids
    && Deliverable(next, n) && Known(next, n, n) && next.uploads[n].identity == l.uploads[n].identity
    && next.settlements == map[n := Settlement(0, 1, 0, false, None)]
    && (forall i, d :: Used(next.daily, i, d) == if i == l.uploads[n].identity && d == 0 then 1 else 0)
    && (forall s :: 0 <= s < n ==> next.uploads[s] == l.uploads[s])
    && next.caps == l.caps
  }

  lemma UploadLast(l: Ledger, n: nat)
    requires Inv(l, LIMITS, 0) && |l.uploads| == n + 1 && l.settlements == map[] && l.daily == map[]
    requires l.uploads[n].state == Reserved && l.uploads[n].token == n && l.uploads[n].reserved == 1
    requires n in l.caps && l.caps[n] == Capability(n, 100)
    ensures var claimed := ClaimLease(l, n, n, Duration(50, 0), 0);
            var settled := Settle(claimed.after, LIMITS, n, n, 1, 0, SETTLED);
            && claimed.result.Ok?
            && settled.result == Ok(Receipt(n, l.uploads[n].identity, 0, 1)) && UploadedLast(l, settled.after, n)
  {
    ClaimOutcome(l, LIMITS, n, n, Duration(50, 0), 0);
    var claimed := ClaimLease(l, n, n, Duration(50, 0), 0).after;
    SettleEffect(claimed, LIMITS, n, n, 1, 0, SETTLED);
  }

  // The merge.

  lemma FoundTwo(hashes: map<(nat, nat), nat>)
    requires (0, 0) in hashes && (1, 0) in hashes && hashes[(0, 0)] < hashes[(1, 0)]
    ensures FoundIdentities(hashes, [0, 1], 0) == [hashes[(0, 0)], hashes[(1, 0)]]
  {
    var one: seq<nat>, two: seq<nat> := [0], [0, 1];
    assert one[..0] == [] && two[..1] == one;
    assert FoundIdentities(hashes, [], 0) == [];
    assert FoundIdentities(hashes, one, 0) == [hashes[(0, 0)]];
    assert InsertSorted([hashes[(0, 0)]], hashes[(1, 0)]) == [hashes[(0, 0)], hashes[(1, 0)]] by {
      assert [hashes[(0, 0)]][1..] == [];
    }
    assert FoundIdentities(hashes, two, 0) == InsertSorted([hashes[(0, 0)]], hashes[(1, 0)]);
  }

  /** The lookup under both secrets moves session n, the only one charged, to the older identity. */
  ghost predicate MovedByLookup(l: Ledger, found: Ledger, n: nat, primary: nat) {
    && |found.uploads| == |l.uploads| == n + 1
    && found.uploads[n] == l.uploads[n].(identity := primary)
    && (forall s :: 0 <= s <= n ==> found.uploads[s].state == l.uploads[s].state && found.uploads[s].reserved == l.uploads[s].reserved)
    && found.settlements == l.settlements && found.caps == l.caps && found.budget == l.budget
    && Used(found.daily, primary, 0) <= 1
  }

  lemma LookupMoves(before: Ledger, l: Ledger, n: nat)
    requires UploadedLast(before, l, n)
    requires (0, 0) in l.ids.hashes && (1, 0) in l.ids.hashes
    requires l.ids.hashes[(0, 0)] < l.ids.hashes[(1, 0)] == l.uploads[n].identity
    ensures var resolved := ResolveIdentity(l, [0, 1], 0);
            && resolved.Ok? && resolved.value.identity == l.ids.hashes[(0, 0)]
            && MovedByLookup(l, resolved.value.ledger, n, l.ids.hashes[(0, 0)])
  {
    var primary, other := l.ids.hashes[(0, 0)], l.ids.hashes[(1, 0)];
    FoundTwo(l.ids.hashes);
    assert [primary, other][1..] == [other] && [other][..0] == [];
    assert MergeAll(l, primary, []) == Ok(l);
    assert MergeAll(l, primary, [other]) == MergeIdentity(l, primary, other);
    MergeMoves(before, l, n, primary, other);
  }

  lemma MergeMoves(before: Ledger, l: Ledger, n: nat, primary: nat, other: nat)
    requires UploadedLast(before, l, n) && primary != other == l.uploads[n].identity
    ensures MergeIdentity(l, primary, other).Ok? && MovedByLookup(l, MergeIdentity(l, primary, other).value, n, primary)
  {
    forall d | d in DaysOf(l.daily, other) ensures Used(l.daily, primary, d) + Used(l.daily, other, d) <= SQL_MAX {
    }
    var merged := MergeIdentity(l, primary, other).value;
    assert Used(merged.daily, primary, 0) <= Used(l.daily, primary, 0) + Used(l.daily, other, 0);
  }

  /** The third reservation, under both secrets, is admitted. */
  lemma ReserveMerges(before: Ledger, l: Ledger, n: nat)
    requires UploadedLast(before, l, n) && forall t :: t in l.caps ==> t <= n
    requires forall s :: 0 <= s <= n ==> !l.uploads[s].state.IsReserved()
    requires (0, 0) in l.ids.hashes && (1, 0) in l.ids.hashes
    requires l.ids.hashes[(0, 0)] < l.ids.hashes[(1, 0)] == l.uploads[n].identity
    ensures var step := Reserve(l, LIMITS, [0, 1], Request(n + 1, 100), 0, RESERVED);
            && step.result == Ok(n + 1)
            && step.after.uploads[n] == l.uploads[n].(identity := l.ids.hashes[(0, 0)])
            && step.after.settlements == l.settlements
  {
    LookupMoves(before, l, n);
    var resolved := ResolveIdentity(l, [0, 1], 0).value;
    AdmitsOne(before, l, resolved.ledger, n, resolved.identity);
    Reserves(l, [0, 1], n + 1, resolved.identity, resolved.ledger);
  }

  lemma AdmitsOne(before: Ledger, l: Ledger, found: Ledger, n: nat, primary: nat)
    requires UploadedLast(before, l, n) && MovedByLookup(l, found, n, primary)
    requires forall s :: 0 <= s <= n ==> !l.uploads[s].state.IsReserved()
    ensures RefusedByLimits(found, LIMITS, primary, 1, 0).None?
  {
    SumZero(HeldColumn(l.uploads));
    SumZero(HeldByColumn(found.uploads, primary));
    SumZero(ActiveColumn(found.uploads, primary));
  }

  // The run.

  lemma Served(l: Ledger, flows: seq<Flow>, op: Service)
    ensures Do(Server(l, flows), Event(0, Serve(op))) == Server(ServiceEffect(l, LIMITS, op, 0), flows)
  {
  }

  lemma SettledStep(l: Ledger, s: nat, actual: nat, receipt: Receipt)
    requires Settle(l, LIMITS, s, s, actual, 0, SETTLED).result == Ok(receipt)
    ensures Do(Server(l, []), Event(0, DoSettle(s, s, actual, SETTLED)))
            == Server(Settle(l, LIMITS, s, s, actual, 0, SETTLED).after, [Flow(receipt, Holding)])
  {
  }

  lemma CompensatedStep(l: Ledger, receipt: Receipt, token: nat)
    ensures Do(Server(l, [Flow(receipt, Holding)]), Event(0, Compensate(0, token)))
            == Server(CompensateLate(l, receipt.session, token, receipt).after, [Flow(receipt, Reverting)])
  {
  }

  lemma RunTwo(y: System, e0: Event, e1: Event)
    ensures Run(y, [e0] + [e1]) == Do(Do(y, e0), e1)
  {
    RunOne(y, e0);
    RunAppend(y, [e0], e1);
  }

  /** A server that went down without exchanges, or is starting again. */
  function Stopped(l: Ledger, status: Status): System {
    System(l, LIMITS, 0, status, [], {}, {})
  }

  lemma CrashedStep(l: Ledger)
    ensures Do(Server(l, []), Event(0, Crash)) == Stopped(l, Down)
  {
    assert Orphans([]) == [];
  }

  lemma ReopenedStep(l: Ledger, secrets: seq<nat>)
    requires Open(l, LIMITS, secrets, 0, NO_FAULTS) == Step(Ok(()), l)
    ensures Do(Stopped(l, Down), Event(0, Reopen(LIMITS, secrets, NO_FAULTS))) == Stopped(l, Starting)
  {
  }

  lemma ListeningStep(l: Ledger)
    ensures Do(Stopped(l, Starting), Event(0, Listen)) == Server(l, [])
  {
  }

  lemma Restarted(l: Ledger, secrets: seq<nat>)
    requires Open(l, LIMITS, secrets, 0, NO_FAULTS) == Step(Ok(()), l)
    ensures Run(Server(l, []), Restart(secrets)) == Server(l, [])
  {
    RunThree(Server(l, []), Event(0, Crash), Event(0, Reopen(LIMITS, secrets, NO_FAULTS)), Event(0, Listen));
    CrashedStep(l);
    ReopenedStep(l, secrets);
    ListeningStep(l);
  }

  /** After the first session the client has one identity and nothing else. */
  lemma AfterFirstEra(l: Ledger)
    requires Idle(l, 0) && l.ids.hashes == map[]
    ensures var y := Run(Server(l, []), FirstEra());
            && y == Server(y.ledger, []) && Idle(y.ledger, 1)
            && (0, 0) in y.ledger.ids.hashes && (1, 0) !in y.ledger.ids.hashes
  {
    ReserveNew(l, 0, 0);
    var reserved := Reserve(l, LIMITS, [0], Request(0, 100), 0, RESERVED).after;
    GiveUpLast(l, reserved, 0, 0);
    ReserveThenExpire(l, [0], Request(0, 100), 0, 0);
  }

  lemma ReserveThenExpire(l: Ledger, secrets: seq<nat>, request: ReserveRequest, s: nat, token: nat)
    ensures Run(Server(l, []), [Event(0, Serve(DoReserve(secrets, request, RESERVED)))] + [Event(0, Serve(DoExpire(s, token)))])
            == Server(Expire(Reserve(l, LIMITS, secrets, request, 0, RESERVED).after, s, token).after, [])
  {
    TwoServed(l, DoReserve(secrets, request, RESERVED), DoExpire(s, token));
  }

  lemma TwoServed(l: Ledger, first: Service, second: Service)
    ensures Run(Server(l, []), [Event(0, Serve(first))] + [Event(0, Serve(second))])
            == Server(ServiceEffect(ServiceEffect(l, LIMITS, first, 0), LIMITS, second, 0), [])
  {
    var middle := ServiceEffect(l, LIMITS, first, 0);
    RunTwo(Server(l, []), Event(0, Serve(first)), Event(0, Serve(second)));
    Served(l, [], first);
    Served(middle, [], second);
  }

  /** The second session is reserved under the second secret, with an identity younger than the first. */
  ghost predicate TwoIdentities(l: Ledger) {
    && Inv(l, LIMITS, 0) && |l.uploads| == 2 && l.settlements == map[] && l.daily == map[]
    && !l.uploads[0].state.IsReserved()
    && l.uploads[1].state == Reserved && l.uploads[1].token == 1 && l.uploads[1].reserved == 1
    && (forall t :: t in l.caps ==> t <= 1) && 1 in l.caps && l.caps[1] == Capability(1, 100)
    && (0, 0) in l.ids.hashes && (1, 0) in l.ids.hashes
    && l.ids.hashes[(0, 0)] < l.ids.hashes[(1, 0)] == l.uploads[1].identity
  }

  lemma IdleOpens(l: Ledger)
    requires Idle(l, 1)
    ensures Open(l, LIMITS, [1], 0, NO_FAULTS) == Step(Ok(()), l)
  {
    assert RowOk(l, 0, 0);
    OpensUnchanged(l, [1]);
  }

  lemma SecondEra(l: Ledger)
    requires Idle(l, 1) && (0, 0) in l.ids.hashes && (1, 0) !in l.ids.hashes
    ensures Run(Server(l, []), Restart([1])) == Server(l, [])
    ensures var next := Do(Server(l, []), ReserveUnder([1], 1)); next == Server(next.ledger, []) && TwoIdentities(next.ledger)
  {
    IdleOpens(l);
    Restarted(l, [1]);
    ReserveNew(l, 1, 1);
    Served(l, [], DoReserve([1], Request(1, 100), RESERVED));
  }

  lemma ThirdEra(l: Ledger)
    requires TwoIdentities(l)
    ensures Run(Server(l, []), Restart([0, 1])) == Server(l, [])
    ensures var y := Run(Server(l, []), UploadOne());
            && y == Server(y.ledger, [Flow(Receipt(1, l.uploads[1].identity, 0, 1), Holding)])
            && UploadedLast(l, y.ledger, 1)
  {
    assert RowOk(l, 0, 0) && HasSecret(l.ids.hashes, [0, 1], l.uploads[1].identity);
    OpensUnchanged(l, [0, 1]);
    Restarted(l, [0, 1]);
    UploadLast(l, 1);
    var claimed := ClaimLease(l, 1, 1, Duration(50, 0), 0).after;
    Served(l, [], DoClaim(1, 1, Duration(50, 0)));
    SettledStep(claimed, 1, 1, Receipt(1, l.uploads[1].identity, 0, 1));
    RunTwo(Server(l, []), Event(0, Serve(DoClaim(1, 1, Duration(50, 0)))), Event(0, DoSettle(1, 1, 1, SETTLED)));
  }

  /** The system once the byte has been settled under the second identity. */
  lemma AfterThree()
    ensures var y := Run(Fresh(LIMITS), SettledUnderTwo());
            && (exists l :: TwoIdentities(l) && UploadedLast(l, y.ledger, 1))
            && y == Server(y.ledger, [Flow(Receipt(1, y.ledger.uploads[1].identity, 0, 1), Holding)])
  {
    var y0 := Fresh(LIMITS);
    EmptyLedgerInv(LIMITS, 0);
    AfterFirstEra(y0.ledger);
    var y1 := Run(y0, FirstEra());
    SecondEra(y1.ledger);
    var y2 := Do(y1, ReserveUnder([1], 1));
    ThirdEra(y2.ledger);
    RunSplit(y0, FirstEra(), Restart([1]));
    RunAppend(y0, FirstEra() + Restart([1]), ReserveUnder([1], 1));
    RunSplit(y0, FirstEra() + Restart([1]) + [ReserveUnder([1], 1)], Restart([0, 1]));
    RunSplit(y0, FirstEra() + Restart([1]) + [ReserveUnder([1], 1)] + Restart([0, 1]), UploadOne());
  }

  /**
   * A compensation that a merge defeats: after the run the worker's compensation gives the charge back, but if
   * the client reserves once more in between, its two identities are merged and the compensation fails; the byte
   * stays charged and the settlement pends.
   */
  lemma MergeDefeatsCompensation()
    ensures var y := Run(Fresh(LIMITS), SettledUnderTwo() + [Event(0, Compensate(0, 1))]); Compensated(y.ledger, 1)
    ensures var y := Run(Fresh(LIMITS), SettledUnderTwo() + [ReserveUnder([0, 1], 2)] + [Event(0, Compensate(0, 1))]);
            && Deliverable(y.ledger, 1) && y.ledger.uploads[1].actual == Some(1)
            && |y.flows| == 1 && y.flows[0].phase == Reverting
  {
    AfterThree();
    var y0, events := Fresh(LIMITS), SettledUnderTwo();
    var y := Run(y0, events);
    var l :| TwoIdentities(l) && UploadedLast(l, y.ledger, 1);
    RunAppend(y0, events, Event(0, Compensate(0, 1)));
    RunAppend(y0, events, ReserveUnder([0, 1], 2));
    RunAppend(y0, events + [ReserveUnder([0, 1], 2)], Event(0, Compensate(0, 1)));
    Undone(l, y.ledger);
    NotUndone(l, y.ledger);
  }

  lemma Undone(before: Ledger, l: Ledger)
    requires TwoIdentities(before) && UploadedLast(before, l, 1)
    ensures var receipt := Receipt(1, l.uploads[1].identity, 0, 1);
            Compensated(Do(Server(l, [Flow(receipt, Holding)]), Event(0, Compensate(0, 1))).ledger, 1)
  {
    var receipt := Receipt(1, l.uploads[1].identity, 0, 1);
    CompensatedStep(l, receipt, 1);
    CompensationOutcome(l, LIMITS, 1, 1, receipt, 0);
    assert Used(l.daily, l.uploads[1].identity, 0) == 1;
  }

  lemma NotUndone(before: Ledger, l: Ledger)
    requires TwoIdentities(before) && UploadedLast(before, l, 1)
    ensures var receipt := Receipt(1, l.uploads[1].identity, 0, 1);
            var y := Do(Do(Server(l, [Flow(receipt, Holding)]), ReserveUnder([0, 1], 2)), Event(0, Compensate(0, 1)));
            && Deliverable(y.ledger, 1) && y.ledger.uploads[1].actual == Some(1)
            && |y.flows| == 1 && y.flows[0].phase == Reverting
  {
    var receipt := Receipt(1, l.uploads[1].identity, 0, 1);
    PendingRow(l, LIMITS, 0, 1);
    ReserveMerges(before, l, 1);
    var merged := Reserve(l, LIMITS, [0, 1], Request(2, 100), 0, RESERVED).after;
    Served(l, [Flow(receipt, Holding)], DoReserve([0, 1], Request(2, 100), RESERVED));
    CompensatedStep(merged, receipt, 1);
  }
}
