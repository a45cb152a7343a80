/**
 * What each ledger transaction answers and leaves behind, as a function of the database state.
 * A failed transaction rolls back, so it leaves the state it found.
 * Answers of the file system, the disk and the clock are arguments.
 */
module LedgerTransactions {
  import opened Prelude
  import opened LedgerTables
  import IdentityScan

  const SECONDS_PER_DAY: nat := 86_400
  const MAX_RESERVATION_DIRECTORY_ENTRIES: nat := 4096
  const MAX_CLEANUP_JOBS_PER_PASS: nat := 64
  const MAX_STARTUP_SETTLEMENT_RECOVERIES: nat := 128
  const SETTLEMENT_ACK_GRACE_SECONDS: nat := 30

  datatype Step<T> = Step(result: Result<T, LimitError>, after: Ledger)

  datatype Receipt = Receipt(session: nat, identity: nat, day: nat, actual: nat)

  datatype Duration = Duration(secs: nat, nanos: nat)

  function Failed<T>(l: Ledger, error: LimitError): Step<T> {
    Step(Err(error), l)
  }

  function DayOf(now: nat): nat {
    now / SECONDS_PER_DAY
  }

  function LoadSession(l: Ledger, s: nat, token: nat): (r: Result<Upload, LimitError>)
    ensures r.Ok? <==> s < |l.uploads| && l.uploads[s].token == token
    ensures r.Ok? ==> r.value == l.uploads[s]
  {
    if s >= |l.uploads| then Err(UnknownSession)
    else if l.uploads[s].token != token then Err(Unauthorized)
    else Ok(l.uploads[s])
  }

  /** `release_global_reserved`. */
  function ReleaseBudget(budget: nat, bytes: nat): Result<nat, LimitError> {
    if bytes <= budget then Ok(budget - bytes) else Err(AccountingInvariant)
  }

  /** `enqueue_cleanup`: INSERT OR IGNORE of sessions that have a path. */
  function EnqueueCleanup(cleanups: map<nat, Cleanup>, uploads: seq<Upload>, s: nat): map<nat, Cleanup>
    requires s < |uploads|
  {
    if uploads[s].path.Some? && s !in cleanups then cleanups[s := Cleanup(0, 0, None)] else cleanups
  }

  /** `revoke_session_capability`. */
  function Revoke(caps: map<nat, Capability>, token: nat): map<nat, Capability> {
    if token in caps then caps[token := caps[token].(expires := 0)] else caps
  }

  /** Charging a settlement: INSERT or add to the row of the identity and day. */
  function ChargeUsage(daily: map<(nat, nat), nat>, identity: nat, day: nat, bytes: nat): map<(nat, nat), nat> {
    daily[(identity, day) := Used(daily, identity, day) + bytes]
  }

  /** Refunding: the row must exist and cover the bytes, and goes away when it reaches zero. */
  function RefundUsage(daily: map<(nat, nat), nat>, identity: nat, day: nat, bytes: nat)
    : Result<map<(nat, nat), nat>, LimitError>
  {
    var key := (identity, day);
    if key !in daily || daily[key] < bytes then Err(AccountingInvariant)
    else if daily[key] == bytes then Ok(daily - {key})
    else Ok(daily[key := daily[key] - bytes])
  }

  function LeaseSeconds(duration: Duration): nat {
    var whole := duration.secs + if duration.nanos > 0 then 1 else 0;
    if whole < 1 then 1 else whole
  }

  function NewLeaseExpiry(now: nat, duration: Duration, capabilityExpiry: nat): Result<nat, LimitError> {
    if capabilityExpiry <= now || duration == Duration(0, 0) then Err(CapabilityExpired)
    else if now + LeaseSeconds(duration) > SQL_MAX then Err(InvalidConfiguration)
    else Ok(Min(now + LeaseSeconds(duration), capabilityExpiry))
  }

  function CapabilityExpiry(l: Ledger, s: nat, token: nat): Result<nat, LimitError> {
    if token in l.caps && l.caps[token].session == s then Ok(l.caps[token].expires) else Err(CapabilityExpired)
  }

  predicate LeaseLive(lease: Option<nat>, now: nat) {
    lease.Some? && lease.value > now
  }

  // Lifecycle of one session before settlement.

  function ClaimLease(l: Ledger, s: nat, token: nat, duration: Duration, now: nat): Step<nat> {
    match LoadSession(l, s, token)
    case Err(e) => Failed(l, e)
    case Ok(u) =>
      if u.state != Reserved then Failed(l, InvalidTransition) else
      match CapabilityExpiry(l, s, token)
      case Err(e) => Failed(l, e)
      case Ok(capability) =>
        match NewLeaseExpiry(now, duration, capability)
        case Err(e) => Failed(l, e)
        case Ok(lease) =>
          Step(Ok(lease), l.(uploads := l.uploads[s := u.(state := Receiving, lease := Some(lease))]))
  }

  function RenewLease(l: Ledger, s: nat, token: nat, duration: Duration, now: nat): Step<nat> {
    match LoadSession(l, s, token)
    case Err(e) => Failed(l, e)
    case Ok(u) =>
      if u.state != Receiving || !LeaseLive(u.lease, now) then Failed(l, InvalidTransition) else
      match CapabilityExpiry(l, s, token)
      case Err(e) => Failed(l, e)
      case Ok(capability) =>
        match NewLeaseExpiry(now, duration, capability)
        case Err(e) => Failed(l, e)
        case Ok(lease) => Step(Ok(lease), l.(uploads := l.uploads[s := u.(lease := Some(lease))]))
  }

  /** Answers of the disk and the file while a reservation grows. */
  datatype ExpandEnv = ExpandEnv(
    fileError: Option<LimitError>,
    available: Result<nat, LimitError>,
    resizeError: Option<LimitError>,
    availableAfter: Result<nat, LimitError>)

  function DiskCheck(available: Result<nat, LimitError>, required: nat): Option<LimitError> {
    match available
    case Err(e) => Some(e)
    case Ok(bytes) => if bytes < required then Some(DiskSafetyMargin) else None
  }

  function FirstError(first: Option<LimitError>, second: Option<LimitError>): Option<LimitError> {
    if first.Some? then first else second
  }

  /** The lease an expansion stores: renewed for a receiver, unchanged for a plain expansion. */
  function ExpandedLease(l: Ledger, s: nat, token: nat, lease: Option<Duration>, current: Option<nat>, now: nat)
    : Result<Option<nat>, LimitError>
  {
    match lease
    case None => Ok(current)
    case Some(duration) =>
      match CapabilityExpiry(l, s, token)
      case Err(e) => Err(e)
      case Ok(_) =>
        match NewLeaseExpiry(now, duration, SQL_MAX)
        case Err(e) => Err(e)
        case Ok(expiry) => Ok(Some(expiry))
  }

  predicate MayExpand(u: Upload, lease: Option<Duration>, now: nat) {
    && u.state.IsReserved()
    && (lease.Some? ==> u.state == Receiving && lease.value != Duration(0, 0) && LeaseLive(u.lease, now))
  }

  /** `expand_internal`; the answer is the reservation the session now holds. */
  function Expand(l: Ledger, limits: Limits, s: nat, token: nat, required: nat,
                  lease: Option<Duration>, now: nat, env: ExpandEnv): Step<nat>
  {
    if required == 0 then Failed(l, InvalidSize)
    else if required > limits.maxFileBytes then Failed(l, FileTooLarge)
    else
      match LoadSession(l, s, token)
      case Err(e) => Failed(l, e)
      case Ok(u) =>
        if !MayExpand(u, lease, now) then Failed(l, InvalidTransition)
        else if env.fileError.Some? then Failed(l, env.fileError.value)
        else if required <= u.reserved then Step(Ok(u.reserved), l)
        else Grow(l, limits, s, u, required, lease, now, env)
  }

  /** The part of an expansion that needs more bytes than the session holds. */
  function Grow(l: Ledger, limits: Limits, s: nat, u: Upload, required: nat,
                lease: Option<Duration>, now: nat, env: ExpandEnv): Step<nat>
    requires s < |l.uploads| && u == l.uploads[s] && u.reserved < required
  {
    var delta := required - u.reserved;
    var committed := Used(l.daily, u.identity, DayOf(now)) + TotalHeldBy(l.uploads, u.identity) + delta;
    var budget := l.budget + delta;
    var disk := FirstError(DiskCheck(env.available, delta + limits.diskSafetyMargin),
                           FirstError(env.resizeError, DiskCheck(env.availableAfter, limits.diskSafetyMargin)));
    if committed >= U64_LIMIT then Failed(l, AccountingInvariant)
    else if committed > limits.dailyQuotaBytes then Failed(l, DailyQuotaExceeded)
    else if budget >= U64_LIMIT then Failed(l, AccountingInvariant)
    else if budget > limits.maxGlobalReserved then Failed(l, GlobalCapacityExceeded)
    else if disk.Some? then Failed(l, disk.value)
    else
      match ExpandedLease(l, s, u.token, lease, u.lease, now)
      case Err(e) => Failed(l, e)
      case Ok(renewed) =>
        Step(Ok(required),
             l.(uploads := l.uploads[s := u.(reserved := required, lease := renewed)], budget := budget))
  }

  predicate TransitionIsLegal(from: UploadState, to: UploadState) {
    || (from == Reserved && to == Receiving)
    || (from == Uploaded && to == Probing)
    || (from == Probing && to == Queued)
    || (to == Rejected && !from.IsTerminal())
  }

  function Transition(l: Ledger, s: nat, token: nat, target: UploadState, fileError: Option<LimitError>): Step<()> {
    match LoadSession(l, s, token)
    case Err(e) => Failed(l, e)
    case Ok(u) =>
      if !TransitionIsLegal(u.state, target) then Failed(l, InvalidTransition)
      else if u.state == Uploaded && s in l.settlements then Failed(l, InvalidTransition)
      else if u.state == Uploaded && fileError.Some? then Failed(l, fileError.value)
      else if target != Rejected then Step(Ok(()), l.(uploads := l.uploads[s := u.(state := target)]))
      else
        match ReleaseBudget(l.budget, u.reserved)
        case Err(e) => Failed(l, e)
        case Ok(budget) =>
          Step(Ok(()), l.(uploads := l.uploads[s := u.(state := Rejected, reserved := 0)],
                          budget := budget,
                          cleanups := EnqueueCleanup(l.cleanups, l.uploads, s)))
  }

  predicate DeliveryPossible(l: Ledger, s: nat) {
    s in l.settlements && l.settlements[s].possible
  }

  /** What turning session s into an expired one does besides refunds: release, revoke, enqueue. */
  function Retire(l: Ledger, s: nat, actual: Option<nat>, budget: nat): Ledger
    requires s < |l.uploads|
  {
    var u := l.uploads[s];
    l.(uploads := l.uploads[s := u.(state := Expired, reserved := 0, lease := None, actual := actual)],
       budget := budget,
       caps := Revoke(l.caps, u.token),
       cleanups := EnqueueCleanup(l.cleanups, l.uploads, s))
  }

  function Expire(l: Ledger, s: nat, token: nat): Step<()> {
    match LoadSession(l, s, token)
    case Err(e) => Failed(l, e)
    case Ok(u) =>
      if u.state == Expired then Step(Ok(()), l)
      else if u.state == Rejected || DeliveryPossible(l, s) then Failed(l, InvalidTransition)
      else
        match ReleaseBudget(l.budget, u.reserved)
        case Err(e) => Failed(l, e)
        case Ok(budget) => Step(Ok(()), Retire(l, s, u.actual, budget))
  }

  // Settlement and its delivery.

  /** Answers of the file system and the deadline while a settlement commits. */
  datatype SettleEnv = SettleEnv(pinError: Option<LimitError>, verifyError: Option<LimitError>, late: bool)

  function Settle(l: Ledger, limits: Limits, s: nat, token: nat, actual: nat, now: nat, env: SettleEnv): Step<Receipt> {
    if actual > limits.maxFileBytes then Failed(l, FileTooLarge)
    else
      match LoadSession(l, s, token)
      case Err(e) => Failed(l, e)
      case Ok(u) =>
        if u.state != Receiving then Failed(l, InvalidTransition)
        else if env.pinError.Some? then Failed(l, env.pinError.value)
        else if actual > u.reserved then Failed(l, SettlementExceedsReservation)
        else
          match SettledUsage(l, limits, u, actual, DayOf(now))
          case Err(e) => Failed(l, e)
          case Ok(budget) =>
            if env.verifyError.Some? then Failed(l, env.verifyError.value)
            else if env.late then Failed(l, OperationTimedOut)
            else Step(Ok(Receipt(s, u.identity, DayOf(now), actual)), Settled(l, s, actual, now, budget))
  }

  /** The quota and budget checks of a settlement; the answer is the budget that remains. */
  function SettledUsage(l: Ledger, limits: Limits, u: Upload, actual: nat, day: nat): Result<nat, LimitError> {
    var used := Used(l.daily, u.identity, day);
    var held := TotalHeldBy(l.uploads, u.identity);
    if held < u.reserved || used + actual + (held - u.reserved) >= U64_LIMIT then Err(AccountingInvariant)
    else if used + actual + (held - u.reserved) > limits.dailyQuotaBytes then Err(DailyQuotaExceeded)
    else ReleaseBudget(l.budget, u.reserved)
  }

  function Settled(l: Ledger, s: nat, actual: nat, now: nat, budget: nat): Ledger
    requires s < |l.uploads|
  {
    var u := l.uploads[s];
    l.(uploads := l.uploads[s := u.(state := Uploaded, reserved := 0, actual := Some(actual), lease := None)],
       budget := budget,
       daily := ChargeUsage(l.daily, u.identity, DayOf(now), actual),
       settlements := l.settlements[s := Settlement(DayOf(now), actual, now, false, None)],
       chargedOn := if s < |l.chargedOn| then l.chargedOn[s := DayOf(now)] else l.chargedOn)
  }

  function BeginDelivery(l: Ledger, s: nat, attempt: nat): Step<()> {
    if s >= |l.uploads| then Failed(l, Database)
    else if l.uploads[s].state != Uploaded then Failed(l, InvalidTransition)
    else if s !in l.settlements || l.settlements[s].attempt.Some? || l.settlements[s].possible
    then Failed(l, InvalidTransition)
    else Step(Ok(()), l.(settlements := l.settlements[s := l.settlements[s].(attempt := Some(attempt))]))
  }

  function MarkDelivery(l: Ledger, s: nat, attempt: nat, fileError: Option<LimitError>): Step<()> {
    if s >= |l.uploads| then Failed(l, Database)
    else if l.uploads[s].state != Uploaded then Failed(l, InvalidTransition)
    else if fileError.Some? then Failed(l, fileError.value)
    else if s !in l.settlements || l.settlements[s].attempt != Some(attempt) || l.settlements[s].possible
    then Failed(l, InvalidTransition)
    else Step(Ok(()), l.(settlements := l.settlements[s := l.settlements[s].(possible := true)]))
  }

  predicate Compensated(l: Ledger, s: nat) {
    && s < |l.uploads|
    && l.uploads[s].state == Expired && l.uploads[s].actual == None && l.uploads[s].reserved == 0
    && s !in l.settlements
  }

  /** `lateAtStart` covers both deadline tests before the first statement. */
  function AbortDelivery(l: Ledger, s: nat, attempt: nat, lateAtStart: bool, lateAtCommit: bool): Step<()> {
    if lateAtStart then Failed(l, OperationTimedOut)
    else if s !in l.settlements || l.settlements[s].attempt != Some(attempt) then
      if Compensated(l, s) then Step(Ok(()), l) else Failed(l, InvalidTransition)
    else
      var unmarked := l.(settlements := l.settlements[s := l.settlements[s].(possible := false)]);
      var recovered := Recover(unmarked, None, 1, true, Some(s));
      if recovered.result.Err? then Failed(l, recovered.result.error)
      else if recovered.result.value != 1 then Failed(l, AccountingInvariant)
      else if lateAtCommit then Failed(l, OperationTimedOut)
      else Step(Ok(()), recovered.after)
  }

  function Acknowledge(l: Ledger, s: nat, fileError: Option<LimitError>): Step<()> {
    if s >= |l.uploads| then Failed(l, Database)
    else if l.uploads[s].state != Uploaded then Failed(l, InvalidTransition)
    else if s !in l.settlements then Step(Ok(()), l)
    else if fileError.Some? then Failed(l, fileError.value)
    else Step(Ok(()), l.(settlements := l.settlements - {s}))
  }

  /** The transaction of `compensate_late_settlement_once`; the cleanup pass after it is a step of its own. */
  function CompensateLate(l: Ledger, s: nat, token: nat, receipt: Receipt): Step<()> {
    if receipt.session != s then Failed(l, AccountingInvariant)
    else
      match LoadSession(l, s, token)
      case Err(e) => Failed(l, e)
      case Ok(u) =>
        if DeliveryPossible(l, s) then Failed(l, InvalidTransition)
        else if u.identity != receipt.identity then Failed(l, AccountingInvariant)
        else if u.state == Uploaded || (u.state == Expired && u.actual.Some?) then
          if u.actual != Some(receipt.actual) then Failed(l, AccountingInvariant)
          else
            match RefundUsage(l.daily, receipt.identity, receipt.day, receipt.actual)
            case Err(e) => Failed(l, e)
            case Ok(daily) =>
              var refunded := l.(daily := daily, settlements := l.settlements - {s});
              Step(Ok(()), if u.state == Uploaded then Retire(refunded, s, None, l.budget) else Forgive(refunded, s))
        else if u.state == Expired then
          Step(Ok(()), l.(caps := Revoke(l.caps, u.token), settlements := l.settlements - {s}))
        else if u.state.IsReserved() then
          match ReleaseBudget(l.budget, u.reserved)
          case Err(e) => Failed(l, e)
          case Ok(budget) => Step(Ok(()), Retire(l.(settlements := l.settlements - {s}), s, None, budget))
        else Failed(l, InvalidTransition)
  }

  /** Clears the charge of a session that had already expired, and revokes its capability. */
  function Forgive(l: Ledger, s: nat): Ledger
    requires s < |l.uploads|
  {
    l.(uploads := l.uploads[s := l.uploads[s].(actual := None)], caps := Revoke(l.caps, l.uploads[s].token))
  }

  // Recovery of unacknowledged settlements.

  /** ORDER BY created_at, session_id. */
  predicate Before(settlements: map<nat, Settlement>, a: nat, b: nat)
    requires a in settlements && b in settlements
  {
    settlements[a].createdAt < settlements[b].createdAt
    || (settlements[a].createdAt == settlements[b].createdAt && a < b)
  }

  function InsertRow(settlements: map<nat, Settlement>, rows: seq<nat>, s: nat): (r: seq<nat>)
    requires s in settlements && forall k :: k in rows ==> k in settlements
    ensures forall k :: k in r <==> k in rows || k == s
  {
    if rows == [] || Before(settlements, s, rows[0]) then [s] + rows
    else [rows[0]] + InsertRow(settlements, rows[1..], s)
  }

  predicate IsDue(settlements: map<nat, Settlement>, before: Option<int>, only: Option<nat>, s: nat) {
    && s in settlements
    && (before.Some? ==> settlements[s].createdAt <= before.value)
    && (only.Some? ==> s == only.value)
  }

  /** The pending rows among the first n sessions that a recovery looks at, in its order. */
  function DueRows(settlements: map<nat, Settlement>, before: Option<int>, only: Option<nat>, n: nat): (rows: seq<nat>)
    ensures forall k: nat :: k in rows <==> k < n && IsDue(settlements, before, only, k)
  {
    if n == 0 then []
    else
      var rest := DueRows(settlements, before, only, n - 1);
      if IsDue(settlements, before, only, n - 1) then InsertRow(settlements, rest, n - 1) else rest
  }

  function Take(rows: seq<nat>, count: nat): seq<nat> {
    if |rows| <= count then rows else rows[..count]
  }

  /** One row of a recovery; the answer says whether the row was one to refund. */
  function RecoverRow(l: Ledger, s: nat): Step<bool>
    requires s in l.settlements
  {
    var row := l.settlements[s];
    if s >= |l.uploads| then Failed(l, Database)
    else
      var u := l.uploads[s];
      if row.possible then
        if u.state != Uploaded || u.actual != Some(row.actual) then Failed(l, AccountingInvariant)
        else Step(Ok(false), l)
      else if u.state == Expired && u.actual == None then
        Step(Ok(true), l.(cleanups := EnqueueCleanup(l.cleanups, l.uploads, s), settlements := l.settlements - {s}))
      else if (u.state != Uploaded && u.state != Expired) || u.actual != Some(row.actual) then
        Failed(l, AccountingInvariant)
      else
        match RefundUsage(l.daily, u.identity, row.day, row.actual)
        case Err(e) => Failed(l, e)
        case Ok(daily) => Step(Ok(true), Refunded(l, s, daily))
  }

  /** The state once the charge of session s has been given back and its settlement row dropped. */
  function Refunded(l: Ledger, s: nat, daily: map<(nat, nat), nat>): Ledger
    requires s < |l.uploads|
  {
    var u := l.uploads[s];
    var cleared := l.(daily := daily, settlements := l.settlements - {s});
    if u.state == Uploaded then Retire(cleared, s, None, l.budget)
    else cleared.(uploads := l.uploads[s := u.(actual := None)],
                  cleanups := EnqueueCleanup(l.cleanups, l.uploads, s))
  }

  /** One more row after a pass that started from `l`. */
  function NextRow(l: Ledger, earlier: Step<nat>, s: nat): Step<nat> {
    if earlier.result.Err? then earlier
    else if s !in earlier.after.settlements then Failed(l, Database)
    else
      var last := RecoverRow(earlier.after, s);
      if last.result.Err? then Failed(l, last.result.error)
      else Step(Ok(earlier.result.value + if last.result.value then 1 else 0), last.after)
  }

  function RecoverRows(l: Ledger, rows: seq<nat>): Step<nat> {
    if rows == [] then Step(Ok(0), l)
    else NextRow(l, RecoverRows(l, rows[..|rows| - 1]), rows[|rows| - 1])
  }

  function Recover(l: Ledger, before: Option<int>, maximum: nat, failClosed: bool, only: Option<nat>): Step<nat> {
    var rows := DueRows(l.settlements, before, only, |l.uploads|);
    if |rows| > maximum && failClosed then Failed(l, PendingSettlementRecoveryLimit)
    else RecoverRows(l, Take(rows, maximum))
  }

  // Expiry of abandoned sessions.

  predicate IsAbandoned(u: Upload, s: nat, caps: map<nat, Capability>, now: nat) {
    || (u.state == Reserved && (u.token !in caps || caps[u.token].session != s || caps[u.token].expires <= now))
    || (u.state == Receiving && !LeaseLive(u.lease, now))
  }

  function AbandonedRows(uploads: seq<Upload>, caps: map<nat, Capability>, now: nat, n: nat): (rows: seq<nat>)
    requires n <= |uploads|
    ensures forall k: nat :: k in rows <==> k < n && IsAbandoned(uploads[k], k, caps, now)
    ensures forall i, j :: 0 <= i < j < |rows| ==> rows[i] < rows[j]
    ensures forall i :: 0 <= i < |rows| ==> rows[i] < n
  {
    if n == 0 then []
    else
      var rest := AbandonedRows(uploads, caps, now, n - 1);
      if IsAbandoned(uploads[n - 1], n - 1, caps, now) then rest + [n - 1] else rest
  }

  function ExpireRow(l: Ledger, s: nat): Step<()>
    requires s < |l.uploads|
  {
    var u := l.uploads[s];
    if !u.state.IsReserved() then Step(Ok(()), l.(cleanups := EnqueueCleanup(l.cleanups, l.uploads, s)))
    else
      match ReleaseBudget(l.budget, u.reserved)
      case Err(e) => Failed(l, e)
      case Ok(budget) => Step(Ok(()), Retire(l, s, u.actual, budget))
  }

  /** One more row after a batch expiry that started from `l`. */
  function NextExpiry(l: Ledger, earlier: Step<()>, s: nat, active: set<nat>): Step<()> {
    if earlier.result.Err? || s in active then earlier
    else if s >= |earlier.after.uploads| then Failed(l, Database)
    else
      var last := ExpireRow(earlier.after, s);
      if last.result.Err? then Failed(l, last.result.error) else last
  }

  function ExpireRows(l: Ledger, rows: seq<nat>, active: set<nat>): Step<()> {
    if rows == [] then Step(Ok(()), l)
    else NextExpiry(l, ExpireRows(l, rows[..|rows| - 1], active), rows[|rows| - 1], active)
  }

  function ExpireAbandoned(l: Ledger, now: nat, active: set<nat>): Step<()> {
    ExpireRows(l, AbandonedRows(l.uploads, l.caps, now, |l.uploads|), active)
  }

  /** The transaction of the periodic reconciliation. */
  function Reconcile(l: Ledger, now: nat, active: set<nat>): Step<()> {
    var recovered := Recover(l, Some(now - SETTLEMENT_ACK_GRACE_SECONDS), MAX_CLEANUP_JOBS_PER_PASS, false, None);
    if recovered.result.Err? then Failed(l, recovered.result.error)
    else
      var expired := ExpireAbandoned(recovered.after, now, active);
      if expired.result.Err? then Failed(l, expired.result.error) else expired
  }

  // File removal, one outbox row at a time.

  datatype Deletion = Removed | Continue(cursor: Option<IdentityScan.Name>) | Error

  /** The transaction that records the outcome of one removal attempt. */
  function RecordCleanup(l: Ledger, s: nat, deletion: Deletion, now: nat): Ledger {
    if s !in l.cleanups then l
    else
      var row := l.cleanups[s];
      match deletion
      case Removed => l.(cleanups := l.cleanups - {s}, removed := l.removed + {s})
      case Continue(cursor) => l.(cleanups := l.cleanups[s := Cleanup(row.attempts + 1, now + 1, cursor)])
      case Error =>
        l.(cleanups := l.cleanups[s := row.(attempts := row.attempts + 1, nextAttempt := now + Backoff(row.attempts + 1))])
  }

  function Backoff(attempts: nat): nat {
    Min([1, 2, 4, 8, 16, 32, 64, 128, 256][Min(attempts, 8)], 300)
  }
}
