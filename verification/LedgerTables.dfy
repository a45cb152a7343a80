/**
 * The tables of the upload ledger and the quantities derived from them.
 *
 * Upload rows are numbered by AUTOINCREMENT and never deleted, so the table is a sequence
 * and session n is the row with id n + 1.
 */
module LedgerTables {
  import opened Prelude
  import opened Sums
  import IdentityScan

  datatype LimitError =
    | InvalidSize | FileTooLarge | DailyQuotaExceeded | SessionLimitExceeded | GlobalCapacityExceeded
    | DiskSafetyMargin | SettlementExceedsReservation | InvalidTransition | UnknownSession | Unauthorized
    | AccountingInvariant | FileIdentityMismatch | PendingSettlementRecoveryLimit | CapabilityExpired
    | CapabilityIssueFailed | OperationTimedOut | ExistingCommitmentsExceedLimits
    | SecretRetentionRequired | InvalidIp | InvalidConfiguration | Filesystem | Database

  datatype UploadState = Reserved | Receiving | Uploaded | Probing | Queued | Expired | Rejected {
    predicate IsReserved() {
      this == Reserved || this == Receiving
    }

    predicate IsTerminal() {
      this == Expired || this == Rejected
    }
  }

  datatype Upload = Upload(
    identity: nat,
    token: nat,
    state: UploadState,
    reserved: nat,
    actual: Option<nat>,
    createdDay: nat,
    path: Option<nat>,
    file: nat,
    lease: Option<nat>)

  /** The session may still receive bytes. */
  predicate IsOpen(u: Upload) {
    u.state == Reserved || u.state == Receiving
  }

  datatype Settlement = Settlement(day: nat, actual: nat, createdAt: nat, possible: bool, attempt: Option<nat>)

  datatype Capability = Capability(session: nat, expires: nat)

  datatype Cleanup = Cleanup(attempts: nat, nextAttempt: nat, cursor: Option<IdentityScan.Name>)

  /** `ip_identities` and `ip_hashes`; a hash is the pair of secret and address, as HMAC is taken to be injective. */
  datatype Identities = Identities(known: set<nat>, next: nat, hashes: map<(nat, nat), nat>)

  datatype Limits = Limits(
    maxFileBytes: nat,
    dailyQuotaBytes: nat,
    maxActiveSessions: nat,
    maxGlobalReserved: nat,
    diskSafetyMargin: nat)
  {
    predicate Valid() {
      && 0 < maxFileBytes <= SQL_MAX
      && 0 < maxActiveSessions < 0x1_0000_0000
      && dailyQuotaBytes <= SQL_MAX
      && maxGlobalReserved <= SQL_MAX
      && diskSafetyMargin <= SQL_MAX
    }
  }

  /**
   * One state of the database. The last two fields are history no operation reads: the day each
   * session's bytes were charged to, which no table keeps once a settlement is acknowledged, and
   * the sessions whose file has been removed.
   */
  datatype Ledger = Ledger(
    uploads: seq<Upload>,
    budget: nat,
    daily: map<(nat, nat), nat>,
    settlements: map<nat, Settlement>,
    cleanups: map<nat, Cleanup>,
    caps: map<nat, Capability>,
    ids: Identities,
    chargedOn: seq<nat>,
    removed: set<nat>)

  const EMPTY_LEDGER: Ledger :=
    Ledger([], 0, map[], map[], map[], map[], Identities({}, 1, map[]), [], {})

  /** `daily_usage` of one identity and day; a missing row counts as zero. */
  function Used(daily: map<(nat, nat), nat>, identity: nat, day: nat): nat {
    if (identity, day) in daily then daily[(identity, day)] else 0
  }

  // What one row contributes to each total.

  function Held(u: Upload): nat {
    if u.state.IsReserved() then u.reserved else 0
  }

  function HeldBy(u: Upload, identity: nat): nat {
    if u.identity == identity then Held(u) else 0
  }

  function ActiveFor(u: Upload, identity: nat): nat {
    if u.identity == identity && u.state.IsReserved() then 1 else 0
  }

  function Charge(u: Upload, chargedOn: nat, identity: nat, day: nat): nat {
    if u.identity == identity && chargedOn == day && u.actual.Some? then u.actual.value else 0
  }

  // The columns and their totals.

  function HeldColumn(uploads: seq<Upload>): seq<nat> {
    seq(|uploads|, k requires 0 <= k < |uploads| => Held(uploads[k]))
  }

  function HeldByColumn(uploads: seq<Upload>, identity: nat): seq<nat> {
    seq(|uploads|, k requires 0 <= k < |uploads| => HeldBy(uploads[k], identity))
  }

  function ActiveColumn(uploads: seq<Upload>, identity: nat): seq<nat> {
    seq(|uploads|, k requires 0 <= k < |uploads| => ActiveFor(uploads[k], identity))
  }

  function ChargeColumn(uploads: seq<Upload>, chargedOn: seq<nat>, identity: nat, day: nat): seq<nat>
    requires |chargedOn| == |uploads|
  {
    seq(|uploads|, k requires 0 <= k < |uploads| => Charge(uploads[k], chargedOn[k], identity, day))
  }

  /** Bytes held by all active sessions. */
  function TotalHeld(uploads: seq<Upload>): nat {
    Sum(HeldColumn(uploads))
  }

  /** Bytes held by the active sessions of one identity. */
  function TotalHeldBy(uploads: seq<Upload>, identity: nat): nat {
    Sum(HeldByColumn(uploads, identity))
  }

  /** How many sessions of one identity are active. */
  function ActiveSessions(uploads: seq<Upload>, identity: nat): nat {
    Sum(ActiveColumn(uploads, identity))
  }

  /** Bytes charged to one identity on one day, summed over its sessions. */
  function TotalCharged(uploads: seq<Upload>, chargedOn: seq<nat>, identity: nat, day: nat): nat
    requires |chargedOn| == |uploads|
  {
    Sum(ChargeColumn(uploads, chargedOn, identity, day))
  }

  /** Replacing one row moves each total by the difference of that row's contributions. */
  lemma RowReplaced(uploads: seq<Upload>, chargedOn: seq<nat>, s: nat, u: Upload, day: nat)
    requires |chargedOn| == |uploads| && s < |uploads|
    ensures TotalHeld(uploads[s := u]) + Held(uploads[s]) == TotalHeld(uploads) + Held(u)
    ensures Held(uploads[s]) <= TotalHeld(uploads)
    ensures forall i :: TotalHeldBy(uploads[s := u], i) + HeldBy(uploads[s], i) == TotalHeldBy(uploads, i) + HeldBy(u, i)
    ensures forall i :: HeldBy(uploads[s], i) <= TotalHeldBy(uploads, i)
    ensures forall i :: ActiveSessions(uploads[s := u], i) + ActiveFor(uploads[s], i)
                        == ActiveSessions(uploads, i) + ActiveFor(u, i)
    ensures forall i, d :: TotalCharged(uploads[s := u], chargedOn[s := day], i, d) + Charge(uploads[s], chargedOn[s], i, d)
                           == TotalCharged(uploads, chargedOn, i, d) + Charge(u, day, i, d)
    ensures forall i, d :: Charge(uploads[s], chargedOn[s], i, d) <= TotalCharged(uploads, chargedOn, i, d)
  {
    var after := uploads[s := u];
    SumPoint(HeldColumn(uploads), HeldColumn(after), s);
    forall i
      ensures TotalHeldBy(after, i) + HeldBy(uploads[s], i) == TotalHeldBy(uploads, i) + HeldBy(u, i)
      ensures HeldBy(uploads[s], i) <= TotalHeldBy(uploads, i)
    {
      SumPoint(HeldByColumn(uploads, i), HeldByColumn(after, i), s);
    }
    forall i
      ensures ActiveSessions(after, i) + ActiveFor(uploads[s], i) == ActiveSessions(uploads, i) + ActiveFor(u, i)
    {
      SumPoint(ActiveColumn(uploads, i), ActiveColumn(after, i), s);
    }
    forall i, d
      ensures TotalCharged(after, chargedOn[s := day], i, d) + Charge(uploads[s], chargedOn[s], i, d)
              == TotalCharged(uploads, chargedOn, i, d) + Charge(u, day, i, d)
      ensures Charge(uploads[s], chargedOn[s], i, d) <= TotalCharged(uploads, chargedOn, i, d)
    {
      SumPoint(ChargeColumn(uploads, chargedOn, i, d), ChargeColumn(after, chargedOn[s := day], i, d), s);
    }
  }

  /** A new row adds its contributions to each total. */
  lemma RowAppended(uploads: seq<Upload>, chargedOn: seq<nat>, u: Upload, day: nat)
    requires |chargedOn| == |uploads|
    ensures TotalHeld(uploads + [u]) == TotalHeld(uploads) + Held(u)
    ensures forall i :: TotalHeldBy(uploads + [u], i) == TotalHeldBy(uploads, i) + HeldBy(u, i)
    ensures forall i :: ActiveSessions(uploads + [u], i) == ActiveSessions(uploads, i) + ActiveFor(u, i)
    ensures forall i, d :: TotalCharged(uploads + [u], chargedOn + [day], i, d)
                           == TotalCharged(uploads, chargedOn, i, d) + Charge(u, day, i, d)
  {
    var after := uploads + [u];
    SumAppend(HeldColumn(uploads), Held(u));
    assert HeldColumn(after) == HeldColumn(uploads) + [Held(u)];
    forall i ensures TotalHeldBy(after, i) == TotalHeldBy(uploads, i) + HeldBy(u, i) {
      SumAppend(HeldByColumn(uploads, i), HeldBy(u, i));
      assert HeldByColumn(after, i) == HeldByColumn(uploads, i) + [HeldBy(u, i)];
    }
    forall i ensures ActiveSessions(after, i) == ActiveSessions(uploads, i) + ActiveFor(u, i) {
      SumAppend(ActiveColumn(uploads, i), ActiveFor(u, i));
      assert ActiveColumn(after, i) == ActiveColumn(uploads, i) + [ActiveFor(u, i)];
    }
    forall i, d
      ensures TotalCharged(after, chargedOn + [day], i, d)
              == TotalCharged(uploads, chargedOn, i, d) + Charge(u, day, i, d)
    {
      SumAppend(ChargeColumn(uploads, chargedOn, i, d), Charge(u, day, i, d));
      assert ChargeColumn(after, chargedOn + [day], i, d)
          == ChargeColumn(uploads, chargedOn, i, d) + [Charge(u, day, i, d)];
    }
  }
}
