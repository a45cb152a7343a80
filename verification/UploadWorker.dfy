/**
 * The actor that owns one upload: it claims the session, writes each chunk only inside the
 * durable reservation, settles at the end, and cleans up on every other way out. Before each of its
 * ledger calls anybody else may use the ledger: other uploads, deliveries, merges of identities,
 * the periodic reconciliation, and the heartbeat that renews this session's own lease.
 */
module UploadWorkers {
  import opened Prelude
  import opened Sums
  import opened LedgerTables
  import opened LedgerTransactions
  import opened LedgerInvariant
  import opened LedgerRecovery
  import opened LedgerOutcomes
  import opened LedgerSteps
  import opened UploadLedgers

  /** The sessions this process is receiving, shared by all its workers. */
  class ActiveUploads {
    var sessions: set<nat>
  }

  // Everybody else.

  /** What others do before a call of the worker, and what the clock then reads. */
  datatype Turn = Turn(steps: seq<Timed>, now: nat)

  predicate PeacefulSteps(steps: seq<Timed>, day: nat, s: nat, secrets: seq<nat>) {
    && Orderly(steps, day)
    && forall i :: 0 <= i < |steps| ==> Elsewhere(steps[i].step, s) && UsesSecrets(steps[i].step, secrets)
  }

  /** Nobody but the owner of session s acts for it, and the day does not go back. */
  predicate Peaceful(turns: seq<Turn>, day: nat, s: nat, secrets: seq<nat>)
    decreases |turns|
  {
    turns == [] ||
    (&& PeacefulSteps(turns[0].steps, day, s, secrets)
     && LastDay(turns[0].steps, day) <= DayOf(turns[0].now)
     && Peaceful(turns[1..], DayOf(turns[0].now), s, secrets))
  }

  /** The tables, what others will do, and the clock. */
  datatype World = World(tables: Ledger, turns: seq<Turn>, now: nat)

  /** The world when a call of the worker gets through: others have acted once more. */
  function Passed(w: World, limits: Limits): World {
    if w.turns == [] then w else World(After(w.tables, limits, w.turns[0].steps), w.turns[1..], w.turns[0].now)
  }

  /** The other users of a ledger, in the order in which their transactions come. */
  class Others {
    const ledger: UploadLedger
    var turns: seq<Turn>
    var now: nat

    constructor (ledger: UploadLedger, turns: seq<Turn>, now: nat)
      ensures this.ledger == ledger && this.turns == turns && this.now == now
    {
      this.ledger, this.turns, this.now := ledger, turns, now;
    }

    ghost predicate Quiet(s: nat)
      reads this, ledger
    {
      ledger.Valid(DayOf(now)) && Peaceful(turns, DayOf(now), s, ledger.secrets)
    }

    ghost function Here(): World
      reads this, ledger
    {
      World(ledger.Contents(), turns, now)
    }

    /** Lets the others act, then reads the clock. */
    method Pass(ghost s: nat)
      requires Quiet(s)
      modifies this, ledger
      ensures Quiet(s)
      ensures Here() == Passed(old(Here()), ledger.limits)
      ensures old(turns) != [] ==>
                && ledger.Contents() == After(old(ledger.Contents()), ledger.limits, old(turns)[0].steps)
                && now == old(turns)[0].now && turns == old(turns)[1..]
      ensures Spared(old(ledger.Contents()), ledger.Contents(), s)
    {
      if turns != [] {
        var turn := turns[0];
        Act(turn.steps, DayOf(now), s);
        DayRollover(ledger.Contents(), ledger.limits, LastDay(turn.steps, DayOf(now)), DayOf(turn.now));
        turns, now := turns[1..], turn.now;
      }
    }

    method Act(steps: seq<Timed>, ghost day: nat, ghost s: nat)
      requires ledger.Valid(day) && PeacefulSteps(steps, day, s, ledger.secrets)
      modifies ledger
      ensures ledger.Valid(LastDay(steps, day))
      ensures ledger.Contents() == After(old(ledger.Contents()), ledger.limits, steps)
      ensures Spared(old(ledger.Contents()), ledger.Contents(), s)
    {
      ghost var start, today := ledger.Contents(), day;
      for i := 0 to |steps|
        invariant today == LastDay(steps[..i], day) && ledger.Valid(today)
        invariant ledger.Contents() == After(start, ledger.limits, steps[..i])
        invariant Spared(start, ledger.Contents(), s)
      {
        var next := steps[i];
        assert steps[..i + 1][..i] == steps[..i];
        ghost var before := ledger.Contents();
        DayRollover(before, ledger.limits, today, DayOf(next.now));
        EffectKeepsInv(before, ledger.limits, next.step, next.now);
        EffectSpares(before, ledger.limits, next.step, next.now, s);
        ledger.Perform(next.step, next.now);
        SparedTwice(start, before, ledger.Contents(), s);
        today := DayOf(next.now);
      }
      assert steps[..|steps|] == steps;
    }
  }

  // The commands.

  /**
   * A command with the answers the environment gives while it runs: whether a deadline is found
   * passed at each test, file errors, and whether the reply still has a receiver.
   */
  datatype Command =
    | Start(lateBefore: bool, openError: Option<LimitError>, lateAfter: bool, delivered: bool)
    | Write(requiredTotal: nat, chunk: nat, lateBefore: bool, marginError: Option<LimitError>,
            expandEnv: ExpandEnv, verifyError: Option<LimitError>, lateAfter: bool,
            writeError: Option<LimitError>, delivered: bool)
    | Finish(actual: nat, lateBefore: bool, fileError: Option<LimitError>, settleEnv: SettleEnv,
             lateAfterCommit: bool, compensationBusy: bool, delivered: bool)
    | Abort

  /** Each total covers the bytes so far and the chunk, and the last is the size. */
  predicate Cumulative(commands: seq<Command>, sent: nat)
    decreases |commands|
  {
    commands == [] ||
    match commands[0]
    case Write(total, chunk, _, _, _, _, _, _, _) => total == sent + chunk && Cumulative(commands[1..], total)
    case Finish(actual, _, _, _, _, _, _) => actual == sent && Cumulative(commands[1..], sent)
    case _ => Cumulative(commands[1..], sent)
  }

  lemma CumulativeStep(commands: seq<Command>, i: nat, sent: nat)
    requires i < |commands| && Cumulative(commands[i..], sent)
    ensures commands[i].Write? ==> commands[i].requiredTotal == sent + commands[i].chunk
    ensures commands[i].Finish? ==> commands[i].actual == sent
    ensures Cumulative(commands[i + 1..], if commands[i].Write? then commands[i].requiredTotal else sent)
  {
    assert commands[i..][0] == commands[i] && commands[i..][1..] == commands[i + 1..];
  }

  /**
   * The byte loop of the request handler: the total it asks the worker to reach with each chunk.
   * It stops at the first chunk that would pass the file limit.
   */
  method ChunkTotals(chunks: seq<nat>, maxFileBytes: nat) returns (totals: seq<nat>, tooLarge: bool)
    ensures |totals| <= |chunks|
    ensures forall i :: 0 <= i < |totals| ==> totals[i] == Sum(chunks[..i + 1]) && totals[i] <= maxFileBytes
    ensures if tooLarge then |totals| < |chunks| && Sum(chunks[..|totals| + 1]) > Min(maxFileBytes, U64_LIMIT - 1)
            else |totals| == |chunks|
  {
    totals, tooLarge := [], false;
    var sent := 0;
    for i := 0 to |chunks|
      invariant |totals| == i && sent == Sum(chunks[..i])
      invariant forall k :: 0 <= k < i ==> totals[k] == Sum(chunks[..k + 1]) && totals[k] <= maxFileBytes
    {
      assert chunks[..i + 1] == chunks[..i] + [chunks[i]];
      SumAppend(chunks[..i], chunks[i]);
      var nextTotal := sent + chunks[i];
      assert nextTotal == Sum(chunks[..i + 1]);
      if nextTotal >= U64_LIMIT || nextTotal > maxFileBytes {
        tooLarge := true;
        return;
      }
      totals := totals + [nextTotal];
      sent := nextTotal;
    }
  }

  /**
   * What the request handler sends: a start, a write of each chunk with its total, and at the end, once
   * all chunks are written, the size; an abort may come at any place.
   */
  predicate FromHandler(commands: seq<Command>, chunks: seq<nat>, totals: seq<nat>) {
    && |totals| <= |chunks|
    && forall i :: 0 <= i < |commands| ==> FromHandlerAt(commands, chunks, totals, i)
  }

  predicate FromHandlerAt(commands: seq<Command>, chunks: seq<nat>, totals: seq<nat>, i: nat)
    requires i < |commands| && |totals| <= |chunks|
  {
    match commands[i]
    case Start(_, _, _, _) => i == 0
    case Write(total, chunk, _, _, _, _, _, _, _) => 1 <= i <= |totals| && total == totals[i - 1] && chunk == chunks[i - 1]
    case Finish(actual, _, _, _, _, _, _) =>
      i == |commands| - 1 && i == |chunks| + 1 && actual == Sum(chunks)
    case Abort => i == |commands| - 1
  }

  /** The totals of the byte loop make the handler's commands cumulative. */
  lemma HandlerIsCumulative(commands: seq<Command>, chunks: seq<nat>, totals: seq<nat>)
    requires FromHandler(commands, chunks, totals)
    requires forall i :: 0 <= i < |totals| ==> totals[i] == Sum(chunks[..i + 1])
    ensures Cumulative(commands, 0)
  {
    assert chunks[..0] == [];
    CumulativeFrom(commands, chunks, totals, 0);
    assert commands[0..] == commands;
  }

  lemma {:induction false} CumulativeFrom(commands: seq<Command>, chunks: seq<nat>, totals: seq<nat>, i: nat)
    requires FromHandler(commands, chunks, totals) && i <= |commands| && (if i == 0 then 0 else i - 1) <= |chunks|
    requires forall k :: 0 <= k < |totals| ==> totals[k] == Sum(chunks[..k + 1])
    ensures Cumulative(commands[i..], Sum(chunks[..if i == 0 then 0 else i - 1]))
    decreases |commands| - i
  {
    if i < |commands| {
      assert FromHandlerAt(commands, chunks, totals, i);
      assert commands[i..][1..] == commands[i + 1..];
      if i + 1 < |commands| {
        NextSum(commands, chunks, totals, i);
        CumulativeFrom(commands, chunks, totals, i + 1);
      } else if commands[i].Finish? {
        assert chunks[..|chunks|] == chunks;
      } else if commands[i].Write? {
        NextSum(commands, chunks, totals, i);
      }
    }
  }

  lemma NextSum(commands: seq<Command>, chunks: seq<nat>, totals: seq<nat>, i: nat)
    requires FromHandler(commands, chunks, totals) && i < |commands|
    requires commands[i].Start? || commands[i].Write?
    ensures i <= |chunks|
    ensures commands[i].Start? ==> Sum(chunks[..0]) == 0
    ensures commands[i].Write? ==> i >= 1 && Sum(chunks[..i]) == Sum(chunks[..i - 1]) + chunks[i - 1]
  {
    assert FromHandlerAt(commands, chunks, totals, i);
    if commands[i].Write? {
      assert chunks[..i] == chunks[..i - 1] + [chunks[i - 1]];
      SumAppend(chunks[..i - 1], chunks[i - 1]);
    }
  }

  // The worker.

  /** The upload a worker serves. */
  datatype Job = Job(session: nat, token: nat, lease: Duration, limits: Limits)

  /** The worlds that the ledger calls of the worker leave, each made after others have acted. */

  function Claimed(w: World, job: Job): World {
    var at := Passed(w, job.limits);
    at.(tables := ClaimLease(at.tables, job.session, job.token, job.lease, at.now).after)
  }

  function Renewed(w: World, job: Job): World {
    var at := Passed(w, job.limits);
    at.(tables := RenewLease(at.tables, job.session, job.token, job.lease, at.now).after)
  }

  /** The reservation is grown only if it does not reach the total. */
  function Enlarged(w: World, job: Job, c: Command): World
    requires c.Write?
  {
    var at := Passed(w, job.limits);
    if HeldNow(w.tables, job.session) >= c.requiredTotal then w
    else at.(tables := Expand(at.tables, job.limits, job.session, job.token, c.requiredTotal, Some(job.lease), at.now, c.expandEnv).after)
  }

  function Ended(w: World, job: Job): World {
    var at := Passed(w, job.limits);
    at.(tables := Expire(at.tables, job.session, job.token).after)
  }

  function HeldNow(l: Ledger, s: nat): nat {
    if s < |l.uploads| then l.uploads[s].reserved else 0
  }

  /** The start command goes through: the claim is granted and the file opens in time. */
  ghost predicate Starts(w: World, job: Job, c: Command)
    requires c.Start?
  {
    var at := Passed(w, job.limits);
    && !c.lateBefore && c.openError.None? && !c.lateAfter
    && ClaimLease(at.tables, job.session, job.token, job.lease, at.now).result.Ok?
  }

  /** The reservation for a chunk is secured: the lease is renewed and, if it must, the reservation grows. */
  ghost predicate Secures(w: World, job: Job, c: Command)
    requires c.Write?
  {
    var first, second := Passed(w, job.limits), Passed(Renewed(w, job), job.limits);
    && RenewLease(first.tables, job.session, job.token, job.lease, first.now).result.Ok?
    && c.marginError.None? && c.verifyError.None?
    && (HeldNow(first.tables, job.session) < c.requiredTotal ==>
          Expand(second.tables, job.limits, job.session, job.token, c.requiredTotal, Some(job.lease), second.now,
                 c.expandEnv).result.Ok?)
  }

  /** The upload settles, in time, and its receipt is taken. */
  ghost predicate Settles(w: World, job: Job, c: Command)
    requires c.Finish?
  {
    var at := Passed(w, job.limits);
    && !c.lateBefore && c.fileError.None? && !c.lateAfterCommit && c.delivered
    && Settle(at.tables, job.limits, job.session, job.token, c.actual, at.now, c.settleEnv).result.Ok?
  }

  /** The worker goes on after its i-th command. */
  ghost predicate GoesOn(w: World, job: Job, i: nat, c: Command) {
    match c
    case Start(_, _, _, delivered) => Starts(w, job, c) && delivered
    case Write(_, _, lateBefore, _, _, _, lateAfter, writeError, delivered) =>
      i > 0 && !lateBefore && Secures(w, job, c) && writeError.None? && !lateAfter && delivered
    case Finish(_, _, _, _, _, _, _) => false
    case Abort => false
  }

  /** The world after a command the worker goes on from. */
  ghost function Onward(w: World, job: Job, c: Command): World {
    match c
    case Start(_, _, _, _) => Passed(Claimed(w, job), job.limits)
    case Write(_, _, _, _, _, _, _, _, _) => Passed(Enlarged(Renewed(w, job), job, c), job.limits)
    case _ => w
  }

  /** These worlds follow one on the other, each by a command from which the worker goes on. */
  ghost predicate Chained(worlds: seq<World>, job: Job, commands: seq<Command>, start: World) {
    && |worlds| <= |commands| && (worlds != [] ==> worlds[0] == start)
    && forall i: nat :: i + 1 < |worlds| ==>
         GoesOn(worlds[i], job, i, commands[i]) && worlds[i + 1] == Onward(worlds[i], job, commands[i])
  }

  /** The last of them leads here. */
  ghost predicate LeadsTo(worlds: seq<World>, job: Job, commands: seq<Command>, start: World, here: World)
    requires |worlds| <= |commands|
  {
    if worlds == [] then here == start
    else
      var last := |worlds| - 1;
      GoesOn(worlds[last], job, last, commands[last]) && here == Onward(worlds[last], job, commands[last])
  }

  /** The last command taken up settled the upload. */
  ghost predicate LastSettles(worlds: seq<World>, job: Job, commands: seq<Command>) {
    && 1 < |worlds| <= |commands| && commands[|worlds| - 1].Finish?
    && Settles(worlds[|worlds| - 1], job, commands[|worlds| - 1])
  }

  lemma OneMoreWorld(worlds: seq<World>, job: Job, commands: seq<Command>, start: World, here: World)
    requires Chained(worlds, job, commands, start) && LeadsTo(worlds, job, commands, start, here) && |worlds| < |commands|
    ensures var more, c := worlds + [here], commands[|worlds|];
            && Chained(more, job, commands, start)
            && (LeadsTo(more, job, commands, start, Onward(here, job, c)) <==> GoesOn(here, job, |worlds|, c))
            && (LastSettles(more, job, commands) <==> worlds != [] && c.Finish? && Settles(here, job, c))
  {
    var more := worlds + [here];
    forall i: nat | i + 1 < |more|
      ensures GoesOn(more[i], job, i, commands[i]) && more[i + 1] == Onward(more[i], job, commands[i])
    {
      assert more[i] == worlds[i];
    }
  }

  /** A command from which the worker goes on settles nothing. */
  lemma NotSettled(worlds: seq<World>, job: Job, commands: seq<Command>, start: World, here: World)
    requires |worlds| <= |commands|
    ensures LeadsTo(worlds, job, commands, start, here) ==> !LastSettles(worlds, job, commands)
  {
  }

  /**
   * The worker took the commands up in these worlds, one after the other: it came to the next command exactly
   * when it could go on, and to no further one.
   */
  ghost predicate TookUp(worlds: seq<World>, job: Job, commands: seq<Command>, start: World) {
    && Chained(worlds, job, commands, start)
    && (|worlds| < |commands| ==> worlds != [] && !GoesOn(worlds[|worlds| - 1], job, |worlds| - 1, commands[|worlds| - 1]))
  }

  /** Nothing but the ledger itself could stop the end of an upload. */
  predicate Smooth(c: Command) {
    && c.Finish?
    && !c.lateBefore && c.fileError.None? && c.settleEnv == SettleEnv(None, None, false)
    && !c.lateAfterCommit && c.delivered
  }

  /** Cleanup can expire the session. */
  predicate Expirable(l: Ledger, s: nat) {
    s < |l.uploads| && l.uploads[s].state != Rejected && !DeliveryPossible(l, s)
  }

  predicate InState(l: Ledger, s: nat, state: UploadState) {
    s < |l.uploads| && l.uploads[s].state == state
  }

  /** The settlement can be given back with this receipt. */
  predicate Refundable(l: Ledger, s: nat, receipt: Receipt) {
    Deliverable(l, s) && l.uploads[s].identity == receipt.identity && UsageKey(l, s) in l.daily
  }

  /** What others leave of the session. */
  lemma SparedMeans(l: Ledger, next: Ledger, s: nat)
    requires s < |l.uploads| && Spared(l, next, s)
    ensures s < |next.uploads| && next.uploads[s].token == l.uploads[s].token
    ensures Expirable(l, s) ==> Expirable(next, s)
    ensures InState(l, s, Expired) ==> InState(next, s, Expired)
    ensures InState(l, s, Receiving) && s !in l.settlements ==>
              InState(next, s, Receiving) && next.uploads[s].reserved == l.uploads[s].reserved && s !in next.settlements
    ensures Deliverable(l, s) ==>
              (Deliverable(next, s) && next.settlements[s] == l.settlements[s]
               && SameButOwner(l.uploads[s], next.uploads[s]))
              || (InState(next, s, Expired) && s !in next.settlements && next.uploads[s].actual.None?)
  {
  }

  /** One chunk written: where it ended, and what was reserved for the session at that moment. */
  datatype Written = Written(end: nat, reserved: nat)

  /** At most one chunk more has been written, up to `end` and within what was reserved. */
  ghost predicate WrittenWithin(before: seq<Written>, after: seq<Written>, end: nat) {
    after == before || exists reserved :: end <= reserved && after == before + [Written(end, reserved)]
  }

  class UploadWorker {
    const ledger: UploadLedger
    const others: Others
    const active: ActiveUploads
    const session: nat
    const token: nat
    const lease: Duration
    var hasFile: bool
    var position: nat
    var reservedBytes: nat
    var claimed: bool
    var settled: bool
    ghost var written: seq<Written>

    constructor (ledger: UploadLedger, others: Others, active: ActiveUploads, session: nat, token: nat, lease: Duration)
      ensures this.ledger == ledger && this.others == others && this.active == active && this.session == session
      ensures this.token == token && this.lease == lease
      ensures !hasFile && !claimed && !settled && position == 0 && written == []
    {
      this.ledger, this.others, this.active, this.session := ledger, others, active, session;
      this.token, this.lease := token, lease;
      hasFile, position, reservedBytes, claimed, settled, written := false, 0, 0, false, false, [];
    }

    /** The row of this worker's session. */
    ghost function Row(): Upload
      requires session < |ledger.uploads|
      reads this, ledger
    {
      ledger.uploads[session]
    }

    /** The session is this worker's, and only the worker and its heartbeat act for it. */
    ghost predicate Owns()
      reads this, others, ledger
    {
      && others.ledger == ledger
      && session < |ledger.uploads| && Row().token == token
      && others.Quiet(session)
    }

    /** Where the worker stands between commands. */
    ghost predicate Working()
      reads this, others, ledger
    {
      && Owns()
      && !settled && claimed == hasFile
      && (hasFile ==> Holds() && position <= reservedBytes)
      && (!hasFile ==> position == 0)
    }

    /** The session is receiving, with the reservation the worker knows. */
    ghost predicate Holds()
      reads this, ledger
    {
      && InState(ledger.Contents(), session, Receiving) && session !in ledger.settlements
      && reservedBytes == Row().reserved
    }

    /** Where the worker stands once it has decided to stop. */
    ghost predicate Halted()
      reads this, others, ledger
    {
      && Owns()
      && !hasFile
      && (settled ==> claimed && Deliverable(ledger.Contents(), session))
      && (claimed && !settled ==> Expirable(ledger.Contents(), session))
    }

    /** The world as this worker finds it. */
    ghost function Here(): World
      reads others, ledger
    {
      World(ledger.Contents(), others.turns, others.now)
    }

    function Duty(): Job {
      Job(session, token, lease, ledger.limits)
    }

    /** Others come first; then the worker makes its next call. */
    method Wait() returns (now: nat)
      requires Owns()
      modifies others, ledger
      ensures Owns() && now == others.now
      ensures Here() == Passed(old(Here()), ledger.limits)
      ensures Spared(old(ledger.Contents()), ledger.Contents(), session)
      ensures old(Holds()) ==> Holds()
      ensures old(Expirable(ledger.Contents(), session)) ==> Expirable(ledger.Contents(), session)
    {
      others.Pass(session);
      SparedMeans(old(ledger.Contents()), ledger.Contents(), session);
      now := others.now;
    }

    /** `cleanup_upload_worker`: an expirable session ends expired, any other is left alone. */
    method Cleanup()
      requires Owns()
      modifies this`hasFile, others, ledger
      ensures Owns() && !hasFile
      ensures Here() == Ended(old(Here()), Duty())
      ensures var at := Passed(old(Here()), ledger.limits);
              && Spared(old(ledger.Contents()), at.tables, session)
              && if Expirable(at.tables, session) then InState(ledger.Contents(), session, Expired)
                 else ledger.Contents() == at.tables
      ensures old(Expirable(ledger.Contents(), session)) ==> InState(ledger.Contents(), session, Expired)
      ensures InState(ledger.Contents(), session, Expired) ==> Expirable(ledger.Contents(), session)
    {
      var now := Wait();
      var _ := ledger.Expire(session, token);
      assert RowOk(ledger.Contents(), session, DayOf(now));
      hasFile := false;
    }

    /** The session may have to be given up: if claimed, cleanup can still expire it. */
    ghost predicate Stopping()
      reads this, others, ledger
    {
      Owns() && !settled && (claimed ==> Expirable(ledger.Contents(), session)) && (!claimed ==> !hasFile)
    }

    /** Asks the ledger for the session. */
    method Ask() returns (granted: bool)
      requires Owns()
      modifies others, ledger
      ensures Owns()
      ensures Here() == Claimed(old(Here()), Duty())
      ensures var at := Passed(old(Here()), ledger.limits);
              && Spared(old(ledger.Contents()), at.tables, session)
              && (granted <==> ClaimLease(at.tables, session, token, lease, at.now).result.Ok?)
              && (granted ==> InState(at.tables, session, Reserved))
      ensures granted ==> InState(ledger.Contents(), session, Receiving) && session !in ledger.settlements
      ensures old(Expirable(ledger.Contents(), session)) ==> Expirable(ledger.Contents(), session)
    {
      var now := Wait();
      var result := ledger.ClaimLease(session, token, lease, now);
      assert RowOk(ledger.Contents(), session, DayOf(now));
      granted := result.Ok?;
    }

    /** Claims the session and opens its file. */
    method Claim(c: Command) returns (success: bool)
      requires c.Start? && Working()
      modifies this`hasFile, this`position, this`reservedBytes, this`claimed, others, ledger
      ensures success <==> Starts(old(Here()), Duty(), c)
      ensures success ==> Working() && hasFile && position == 0 == old(position)
      ensures success ==> Here() == Onward(old(Here()), Duty(), c)
      ensures Stopping()
    {
      success := false;
      if !c.lateBefore {
        var granted := Ask();
        if granted {
          SparedMeans(old(ledger.Contents()), Passed(old(Here()), ledger.limits).tables, session);
          claimed := true;
          success := OpenFile(c);
        }
      }
    }

    /** Opens the file of the session just claimed. */
    method OpenFile(c: Command) returns (success: bool)
      requires c.Start? && Owns() && !settled && claimed && !hasFile
      requires InState(ledger.Contents(), session, Receiving) && session !in ledger.settlements
      modifies this`hasFile, this`position, this`reservedBytes, others, ledger
      ensures success <==> c.openError.None? && !c.lateAfter
      ensures success ==> Working() && hasFile && position == 0 && Here() == Passed(old(Here()), ledger.limits)
      ensures Stopping()
    {
      success := c.openError.None? && !c.lateAfter;
      if success {
        hasFile, position, reservedBytes := true, 0, ledger.uploads[session].reserved;
        var _ := Wait();
      }
    }

    /** After a command: goes on if it succeeded and somebody took the answer, and cleans up otherwise. */
    method Conclude(success: bool, delivered: bool) returns (stop: bool)
      requires Stopping() && (success ==> Working() && hasFile)
      modifies this`hasFile, others, ledger
      ensures stop <==> !(success && delivered)
      ensures if stop then Halted() && (claimed ==> InState(ledger.Contents(), session, Expired))
              else Working() && hasFile && Here() == old(Here())
    {
      if !success && claimed {
        Cleanup();
      }
      stop := !success || !delivered;
      if stop && claimed {
        Cleanup();
      }
    }

    method DoStart(c: Command) returns (stop: bool)
      requires c.Start? && Working()
      modifies this`hasFile, this`position, this`reservedBytes, this`claimed, others, ledger
      ensures stop <==> !(Starts(old(Here()), Duty(), c) && c.delivered)
      ensures if stop then Halted()
              else Working() && hasFile && position == old(position) && Here() == Onward(old(Here()), Duty(), c)
      ensures stop && claimed ==> InState(ledger.Contents(), session, Expired)
    {
      var success := Claim(c);
      stop := Conclude(success, c.delivered);
    }

    /** One chunk; the reservation is durable before the bytes are written. */
    method DoWrite(c: Command) returns (stop: bool)
      requires c.Write? && Working() && c.requiredTotal == position + c.chunk
      modifies this`hasFile, this`position, this`reservedBytes, this`written, others, ledger
      ensures stop <==>
                !(old(hasFile) && !c.lateBefore && c.writeError.None? && !c.lateAfter && c.delivered
                  && Secures(old(Here()), Duty(), c))
      ensures if stop then Halted()
              else Working() && hasFile && position == c.requiredTotal && Here() == Onward(old(Here()), Duty(), c)
      ensures stop && claimed ==> InState(ledger.Contents(), session, Expired)
      ensures WrittenWithin(old(written), written, c.requiredTotal)
      ensures !stop ==> written != old(written)
    {
      if c.lateBefore {
        Stop();
        return true;
      }
      if !hasFile { return true; }
      var success := Put(c);
      stop := Conclude(success, c.delivered);
    }

    /** Secures the reservation, then writes. */
    method Put(c: Command) returns (success: bool)
      requires c.Write? && Working() && hasFile && c.requiredTotal == position + c.chunk
      modifies this`position, this`reservedBytes, this`written, others, ledger
      ensures success <==> c.writeError.None? && !c.lateAfter && Secures(old(Here()), Duty(), c)
      ensures Working() && hasFile && Stopping()
      ensures success ==>
                position == c.requiredTotal && written != old(written) && Here() == Onward(old(Here()), Duty(), c)
      ensures WrittenWithin(old(written), written, c.requiredTotal)
    {
      success := Secure(c);
      if success {
        success := WriteChunk(c);
      }
    }

    /** Writes at the position, which moves on if the chunk is written. */
    method WriteChunk(c: Command) returns (success: bool)
      requires c.Write? && Working() && hasFile && c.requiredTotal == position + c.chunk <= Row().reserved
      modifies this`position, this`written
      ensures success <==> c.writeError.None? && !c.lateAfter
      ensures Working() && hasFile
      ensures success ==> position == c.requiredTotal
      ensures written == old(written) + [Written(c.requiredTotal, Row().reserved)]
    {
      written := written + [Written(position + c.chunk, Row().reserved)];
      if c.writeError.None? {
        position := position + c.chunk;
      }
      success := c.writeError.None? && !c.lateAfter;
    }

    /** Cleans up while working. */
    method Stop()
      requires Working()
      modifies this`hasFile, others, ledger
      ensures Halted()
      ensures claimed ==> InState(ledger.Contents(), session, Expired)
    {
      Cleanup();
    }

    /** Renews the lease and, if needed, grows the reservation to the total the chunk reaches. */
    method Secure(c: Command) returns (ready: bool)
      requires c.Write? && Working() && hasFile
      modifies this`reservedBytes, others, ledger
      ensures Working() && hasFile
      ensures ready <==> Secures(old(Here()), Duty(), c)
      ensures ready ==> c.requiredTotal <= Row().reserved && Here() == Onward(old(Here()), Duty(), c)
    {
      var renewed := Renew();
      if !renewed || c.marginError.Some? { return false; }
      var covered := Enlarge(c);
      if !covered { return false; }
      var _ := Wait();
      ready := c.verifyError.None?;
    }

    method Renew() returns (renewed: bool)
      requires Working() && hasFile
      modifies others, ledger
      ensures Working() && hasFile
      ensures Here() == Renewed(old(Here()), Duty())
      ensures var at := Passed(old(Here()), ledger.limits);
              && (renewed <==> RenewLease(at.tables, session, token, lease, at.now).result.Ok?)
              && HeldNow(at.tables, session) == reservedBytes
    {
      var now := Wait();
      var result := ledger.RenewLease(session, token, lease, now);
      renewed := result.Ok?;
    }

    /** Grows the reservation, if it does not already cover the total the chunk reaches. */
    method Enlarge(c: Command) returns (covered: bool)
      requires c.Write? && Working() && hasFile
      modifies this`reservedBytes, others, ledger
      ensures Working() && hasFile
      ensures Here() == Enlarged(old(Here()), Duty(), c)
      ensures var at := Passed(old(Here()), ledger.limits);
              covered <==>
                (old(reservedBytes) < c.requiredTotal ==>
                   Expand(at.tables, ledger.limits, session, token, c.requiredTotal, Some(lease), at.now,
                          c.expandEnv).result.Ok?)
      ensures covered ==> c.requiredTotal <= Row().reserved
    {
      if c.requiredTotal <= reservedBytes { return true; }
      var now := Wait();
      var grown := ledger.Expand(session, token, c.requiredTotal, Some(lease), now, c.expandEnv);
      if grown.Err? { return false; }
      reservedBytes := grown.value;
      covered := true;
    }

    /** Settles the upload; if nobody takes the receipt the settlement is taken back. */
    method DoFinish(c: Command)
      requires c.Finish? && Working() && c.actual == position
      modifies this`hasFile, this`settled, others, ledger
      ensures Halted()
      ensures settled <==> old(hasFile) && Settles(old(Here()), Duty(), c)
      ensures settled ==>
                var at := Passed(old(Here()), ledger.limits);
                Row().actual == Some(c.actual)
                && Here() == at.(tables := Settle(at.tables, ledger.limits, session, token, c.actual, at.now, c.settleEnv).after)
      ensures old(hasFile) && Smooth(c) && c.actual <= ledger.limits.maxFileBytes ==> settled
      ensures old(hasFile) && !settled ==>
                InState(ledger.Contents(), session, Expired) || Deliverable(ledger.Contents(), session)
    {
      if !c.lateBefore && hasFile && c.fileError.None? {
        SettleAndAnswer(c);
      } else {
        Cleanup();
      }
    }

    /** Settles an upload whose file is complete and in time. */
    method SettleAndAnswer(c: Command)
      requires c.Finish? && Working() && hasFile && c.actual == position && !c.lateBefore && c.fileError.None?
      modifies this`hasFile, this`settled, others, ledger
      ensures Halted()
      ensures settled <==> Settles(old(Here()), Duty(), c)
      ensures settled ==>
                var at := Passed(old(Here()), ledger.limits);
                Row().actual == Some(c.actual)
                && Here() == at.(tables := Settle(at.tables, ledger.limits, session, token, c.actual, at.now, c.settleEnv).after)
      ensures Smooth(c) && c.actual <= ledger.limits.maxFileBytes ==> settled
      ensures !settled ==> InState(ledger.Contents(), session, Expired) || Deliverable(ledger.Contents(), session)
    {
      var receipt := SettleUpload(c);
      if receipt.Ok? {
        hasFile := false;
        Answer(c, receipt.value);
      } else {
        Cleanup();
      }
    }

    /** Answers with the receipt; if it is too late, or nobody takes it, the settlement is taken back. */
    method Answer(c: Command, receipt: Receipt)
      requires c.Finish? && Owns() && !hasFile && !settled && claimed
      requires Deliverable(ledger.Contents(), session) && OwnReceipt(ledger.Contents(), session, receipt)
      modifies this`settled, others, ledger
      ensures Halted()
      ensures settled <==> !c.lateAfterCommit && c.delivered
      ensures settled ==> Here() == old(Here())
      ensures InState(ledger.Contents(), session, Expired) || Deliverable(ledger.Contents(), session)
    {
      if !c.lateAfterCommit && c.delivered {
        settled := true;
      } else {
        Revert(c, receipt);
      }
    }

    /** The ledger call that ends an upload. */
    method SettleUpload(c: Command) returns (receipt: Result<Receipt, LimitError>)
      requires c.Finish? && Working() && hasFile && c.actual == position
      modifies others, ledger
      ensures Owns()
      ensures var at := Passed(old(Here()), ledger.limits);
              var step := Settle(at.tables, ledger.limits, session, token, c.actual, at.now, c.settleEnv);
              receipt == step.result && Here() == at.(tables := step.after)
      ensures c.settleEnv == SettleEnv(None, None, false) && c.actual <= ledger.limits.maxFileBytes ==> receipt.Ok?
      ensures receipt.Ok? ==>
                && Deliverable(ledger.Contents(), session) && Row().actual == Some(c.actual)
                && OwnReceipt(ledger.Contents(), session, receipt.value)
      ensures receipt.Err? ==> Working() && hasFile
    {
      var now := Wait();
      receipt := ledger.Settle(session, token, c.actual, now, c.settleEnv);
    }

    /**
     * Takes a settlement back whose result nobody received. If storage is busy, or a merge has changed
     * the session's identity meanwhile, the intent stays for recovery.
     */
    method Revert(c: Command, receipt: Receipt)
      requires c.Finish? && Owns() && !hasFile && !settled
      requires Deliverable(ledger.Contents(), session) && OwnReceipt(ledger.Contents(), session, receipt)
      modifies others, ledger
      ensures Halted()
      ensures var at := Passed(old(Here()), ledger.limits);
              && (c.compensationBusy ==> Here() == at)
              && (!c.compensationBusy ==> Here() == at.(tables := CompensateLate(at.tables, session, token, receipt).after))
              && (!c.compensationBusy && Refundable(at.tables, session, receipt) ==> Compensated(ledger.Contents(), session))
      ensures InState(ledger.Contents(), session, Expired) || Deliverable(ledger.Contents(), session)
    {
      var now := Wait();
      SparedMeans(old(ledger.Contents()), ledger.Contents(), session);
      assert RowOk(ledger.Contents(), session, DayOf(now));
      if !c.compensationBusy {
        CompensateStepKeepsInv(ledger.Contents(), ledger.limits, session, token, receipt, DayOf(now));
        var _ := ledger.CompensateLate(session, token, receipt);
      }
    }

    /** One command. */
    method Handle(c: Command) returns (stop: bool)
      requires Working()
      requires c.Write? ==> c.requiredTotal == position + c.chunk
      requires c.Finish? ==> c.actual == position
      requires forall k :: 0 <= k < |written| ==> written[k].end <= written[k].reserved
      modifies this`hasFile, this`position, this`reservedBytes, this`claimed, this`settled, this`written, others, ledger
      ensures forall i: nat :: (i > 0 <==> old(hasFile)) ==> (stop <==> !GoesOn(old(Here()), Duty(), i, c))
      ensures if stop then Halted()
              else
                && Working() && hasFile && position == (if c.Write? then c.requiredTotal else old(position))
                && Here() == Onward(old(Here()), Duty(), c)
      ensures forall k :: 0 <= k < |written| ==> written[k].end <= written[k].reserved
      ensures settled <==> c.Finish? && old(hasFile) && Settles(old(Here()), Duty(), c)
      ensures settled ==> Row().actual == Some(position)
    {
      match c {
        case Start(_, _, _, _) =>
          stop := DoStart(c);
        case Write(_, _, _, _, _, _, _, _, _) =>
          stop := DoWrite(c);
        case Finish(_, _, _, _, _, _, _) =>
          DoFinish(c);
          stop := true;
        case Abort =>
          Stop();
          stop := true;
      }
    }

    /** Where a run stands once it has taken up as many commands as there are worlds. */
    ghost predicate Underway(commands: seq<Command>, start: World, worlds: seq<World>, stop: bool)
      reads this, others, ledger
    {
      var n := |worlds|;
      && Chained(worlds, Duty(), commands, start)
      && (forall k :: 0 <= k < |written| ==> written[k].end <= written[k].reserved)
      && (settled <==> stop && LastSettles(worlds, Duty(), commands))
      && if stop then
           Halted() && n > 0 && !GoesOn(worlds[n - 1], Duty(), n - 1, commands[n - 1]) && (settled ==> Row().actual == Some(position))
         else
           Working() && Cumulative(commands[n..], position) && (hasFile <==> n > 0)
           && LeadsTo(worlds, Duty(), commands, start, Here())
    }

    /** Takes up the next command. */
    method TakeUp(commands: seq<Command>, i: nat, ghost start: World, ghost worlds: seq<World>) returns (stop: bool)
      requires i == |worlds| < |commands| && Underway(commands, start, worlds, false)
      modifies this`hasFile, this`position, this`reservedBytes, this`claimed, this`settled, this`written, others, ledger
      ensures Underway(commands, start, worlds + [old(Here())], stop)
    {
      CumulativeStep(commands, i, position);
      OneMoreWorld(worlds, Duty(), commands, start, Here());
      stop := Handle(commands[i]);
    }

    /** The loop over the commands. */
    method Drive(commands: seq<Command>) returns (ghost worlds: seq<World>)
      requires Working() && !claimed && position == 0 && written == []
      requires Cumulative(commands, 0)
      modifies this`hasFile, this`position, this`reservedBytes, this`claimed, this`settled, this`written, others, ledger
      ensures Halted() || Working()
      ensures TookUp(worlds, Duty(), commands, old(Here()))
      ensures settled <==> LastSettles(worlds, Duty(), commands)
      ensures forall k :: 0 <= k < |written| ==> written[k].end <= written[k].reserved
      ensures settled ==> Row().actual == Some(position)
    {
      ghost var start := Here();
      var stop := false;
      var i := 0;
      worlds := [];
      while i < |commands| && !stop
        invariant i == |worlds| && Underway(commands, start, worlds, stop)
        decreases |commands| - i
      {
        ghost var here := Here();
        stop := TakeUp(commands, i, start, worlds);
        worlds := worlds + [here];
        i := i + 1;
      }
      NotSettled(worlds, Duty(), commands, start, Here());
    }

    /**
     * The whole life of the worker, whatever commands arrive and whatever others do between its calls: it takes
     * the commands up one after the other as long as it can go on, no chunk is written past the reservation
     * stored at that moment, and a claimed session ends settled with its intent pending, exactly when its last
     * command settled it, or expired; it is never left receiving, and leaves the active set.
     */
    method Run(commands: seq<Command>) returns (ghost worlds: seq<World>)
      requires Working() && !claimed && position == 0 && written == []
      requires Cumulative(commands, 0)
      modifies this, others, ledger, active
      ensures Owns() && !hasFile
      ensures TookUp(worlds, Duty(), commands, old(Here()))
      ensures settled <==> LastSettles(worlds, Duty(), commands)
      ensures forall k :: 0 <= k < |written| ==> written[k].end <= written[k].reserved
      ensures settled ==> claimed && Deliverable(ledger.Contents(), session) && Row().actual == Some(position)
      ensures claimed && !settled ==> InState(ledger.Contents(), session, Expired)
      ensures active.sessions == old(active.sessions) - {session}
    {
      worlds := Drive(commands);
      Leave();
    }

    /** The last cleanup, and out of the active set. */
    method Leave()
      requires Halted() || Working()
      modifies this`hasFile, others, ledger, active
      ensures Owns() && !hasFile
      ensures settled ==> claimed && Deliverable(ledger.Contents(), session) && Row() == old(Row())
      ensures claimed && !settled ==> InState(ledger.Contents(), session, Expired)
      ensures active.sessions == old(active.sessions) - {session}
    {
      if !settled && claimed {
        Cleanup();
      }
      active.sessions := active.sessions - {session};
    }
  }
}
