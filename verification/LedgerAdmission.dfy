/**
 * Admission of a new upload and the opening of a database: identity lookup with merging,
 * the quota tests, and the start-up transaction.
 */
module LedgerAdmission {
  import opened Prelude
  import opened LedgerTables
  import opened LedgerTransactions

  // Identities.

  function InsertSorted(ids: seq<nat>, id: nat): seq<nat> {
    if ids == [] || id < ids[0] then [id] + ids else [ids[0]] + InsertSorted(ids[1..], id)
  }

  /** The distinct identities an address has under the given secrets, in increasing order. */
  function FoundIdentities(hashes: map<(nat, nat), nat>, secrets: seq<nat>, ip: nat): seq<nat> {
    if secrets == [] then []
    else
      var found := FoundIdentities(hashes, secrets[..|secrets| - 1], ip);
      var hash := (secrets[|secrets| - 1], ip);
      if hash in hashes && hashes[hash] !in found then InsertSorted(found, hashes[hash]) else found
  }

  function DaysOf(daily: map<(nat, nat), nat>, identity: nat): set<nat> {
    set key | key in daily && key.0 == identity :: key.1
  }

  /** `daily_usage` once every row of `other` has been added to the row of `primary` of the same day. */
  function MergedUsage(daily: map<(nat, nat), nat>, primary: nat, other: nat): map<(nat, nat), nat> {
    map key | key in daily.Keys + (set d | d in DaysOf(daily, other) :: (primary, d)) && key.0 != other ::
      if key.0 == primary then Used(daily, primary, key.1) + Used(daily, other, key.1) else Used(daily, key.0, key.1)
  }

  function Reassigned(uploads: seq<Upload>, primary: nat, other: nat): seq<Upload> {
    seq(|uploads|, k requires 0 <= k < |uploads| =>
      if uploads[k].identity == other then uploads[k].(identity := primary) else uploads[k])
  }

  function RenamedHashes(hashes: map<(nat, nat), nat>, primary: nat, other: nat): map<(nat, nat), nat> {
    map h | h in hashes :: if hashes[h] == other then primary else hashes[h]
  }

  /** `merge_identity`; stored usage fits an SQL integer, so the sum of two rows cannot leave 64 unsigned bits. */
  function MergeIdentity(l: Ledger, primary: nat, other: nat): Result<Ledger, LimitError> {
    if exists d :: d in DaysOf(l.daily, other) && Used(l.daily, primary, d) + Used(l.daily, other, d) > SQL_MAX
    then Err(InvalidSize)
    else Ok(l.(uploads := Reassigned(l.uploads, primary, other),
               daily := MergedUsage(l.daily, primary, other),
               ids := l.ids.(known := l.ids.known - {other}, hashes := RenamedHashes(l.ids.hashes, primary, other))))
  }

  function MergeAll(l: Ledger, primary: nat, others: seq<nat>): Result<Ledger, LimitError> {
    if others == [] then Ok(l)
    else
      match MergeAll(l, primary, others[..|others| - 1])
      case Err(e) => Err(e)
      case Ok(merged) => MergeIdentity(merged, primary, others[|others| - 1])
  }

  /** INSERT OR IGNORE of one hash per secret. */
  function WithHashes(hashes: map<(nat, nat), nat>, secrets: seq<nat>, ip: nat, id: nat): map<(nat, nat), nat> {
    hashes + (map secret | secret in secrets && (secret, ip) !in hashes :: (secret, ip) := id)
  }

  datatype Resolved = Resolved(identity: nat, ledger: Ledger)

  function ResolveIdentity(l: Ledger, secrets: seq<nat>, ip: nat): Result<Resolved, LimitError> {
    var found := FoundIdentities(l.ids.hashes, secrets, ip);
    if found == [] then
      var id := l.ids.next;
      Ok(Resolved(id, l.(ids := Identities(l.ids.known + {id}, id + 1, WithHashes(l.ids.hashes, secrets, ip, id)))))
    else
      match MergeAll(l, found[0], found[1..])
      case Err(e) => Err(e)
      case Ok(merged) =>
        Ok(Resolved(found[0],
                    merged.(ids := merged.ids.(hashes := WithHashes(merged.ids.hashes, secrets, ip, found[0])))))
  }

  // Reservation.

  /** `ip` is absent when the text is not an address; `expiry` is present for the server's capability sessions. */
  datatype ReserveRequest = ReserveRequest(ip: Option<nat>, declared: Option<nat>, token: nat, expiry: Option<nat>)

  datatype ReserveEnv = ReserveEnv(
    lateAtStart: bool,
    entries: Result<nat, LimitError>,
    lateAfterScan: bool,
    available: Result<nat, LimitError>,
    path: nat,
    created: Result<nat, LimitError>,
    availableAfter: Result<nat, LimitError>,
    capabilityError: Option<LimitError>,
    lateAtCommit: bool)

  function Requested(limits: Limits, declared: Option<nat>): nat {
    if declared.Some? then declared.value else limits.maxFileBytes
  }

  /** Why the request is refused before any identity is looked up. */
  function RefusedEarly(limits: Limits, request: ReserveRequest, env: ReserveEnv): Option<LimitError> {
    var bytes := Requested(limits, request.declared);
    if bytes == 0 then Some(InvalidSize)
    else if bytes > limits.maxFileBytes then Some(FileTooLarge)
    else if request.ip.None? then Some(InvalidIp)
    else if env.lateAtStart then Some(OperationTimedOut)
    else if env.entries.Err? then Some(env.entries.error)
    else if env.entries.value >= MAX_RESERVATION_DIRECTORY_ENTRIES then Some(GlobalCapacityExceeded)
    else if env.lateAfterScan then Some(OperationTimedOut)
    else None
  }

  /** Why the limits refuse `bytes` more for an identity. */
  function RefusedByLimits(l: Ledger, limits: Limits, identity: nat, bytes: nat, day: nat): Option<LimitError> {
    var committed := Used(l.daily, identity, day) + TotalHeldBy(l.uploads, identity) + bytes;
    if ActiveSessions(l.uploads, identity) >= limits.maxActiveSessions then Some(SessionLimitExceeded)
    else if committed >= U64_LIMIT then Some(AccountingInvariant)
    else if committed > limits.dailyQuotaBytes then Some(DailyQuotaExceeded)
    else if l.budget + bytes >= U64_LIMIT then Some(AccountingInvariant)
    else if l.budget + bytes > limits.maxGlobalReserved then Some(GlobalCapacityExceeded)
    else None
  }

  /** Why the disk, the capability table or the deadline stops a reservation the limits allow. */
  function RefusedLate(l: Ledger, limits: Limits, bytes: nat, request: ReserveRequest, env: ReserveEnv): Option<LimitError> {
    var disk := DiskCheck(env.available, bytes + limits.diskSafetyMargin);
    var margin := DiskCheck(env.availableAfter, limits.diskSafetyMargin);
    if disk.Some? then disk
    else if env.created.Err? then Some(env.created.error)
    else if margin.Some? then margin
    else if request.expiry.Some? && env.capabilityError.Some? then env.capabilityError
    else if request.expiry.Some? && request.token in l.caps then Some(Database)
    else if env.lateAtCommit then Some(OperationTimedOut)
    else None
  }

  /** The committed reservation. A late commit is undone afterwards by `Expire`, a transaction of its own. */
  function Reserve(l: Ledger, limits: Limits, secrets: seq<nat>, request: ReserveRequest, now: nat, env: ReserveEnv)
    : Step<nat>
  {
    var early := RefusedEarly(limits, request, env);
    if early.Some? then Failed(l, early.value)
    else
      match ResolveIdentity(l, secrets, request.ip.value)
      case Err(e) => Failed(l, e)
      case Ok(resolved) =>
        var bytes := Requested(limits, request.declared);
        var refused := FirstError(RefusedByLimits(resolved.ledger, limits, resolved.identity, bytes, DayOf(now)),
                                  RefusedLate(resolved.ledger, limits, bytes, request, env));
        if refused.Some? then Failed(l, refused.value)
        else Step(Ok(|resolved.ledger.uploads|), Admitted(resolved.ledger, resolved.identity, bytes, request, now, env))
  }

  function Admitted(l: Ledger, identity: nat, bytes: nat, request: ReserveRequest, now: nat, env: ReserveEnv): Ledger
    requires env.created.Ok?
  {
    var row := Upload(identity, request.token, Reserved, bytes, None, DayOf(now), Some(env.path), env.created.value, None);
    l.(uploads := l.uploads + [row],
       budget := l.budget + bytes,
       caps := if request.expiry.Some?
               then l.caps[request.token := Capability(|l.uploads|, request.expiry.value)] else l.caps,
       chargedOn := l.chargedOn + [DayOf(now)])
  }

  // Opening a database.

  /** Some stored alias of the identity was made with a secret still in use. */
  predicate HasSecret(hashes: map<(nat, nat), nat>, secrets: seq<nat>, identity: nat) {
    exists h :: h in hashes && hashes[h] == identity && h.0 in secrets
  }

  predicate SecretsRetained(l: Ledger, secrets: seq<nat>, day: nat) {
    && (forall k :: 0 <= k < |l.uploads| && l.uploads[k].state.IsReserved() ==>
          HasSecret(l.ids.hashes, secrets, l.uploads[k].identity))
    && (forall key :: key in l.daily && key.1 == day && l.daily[key] > 0 ==> HasSecret(l.ids.hashes, secrets, key.0))
  }

  predicate CommitmentsFit(l: Ledger, limits: Limits, day: nat) {
    && (forall k :: 0 <= k < |l.uploads| && l.uploads[k].state.IsReserved() ==>
          && ActiveSessions(l.uploads, l.uploads[k].identity) <= limits.maxActiveSessions
          && Used(l.daily, l.uploads[k].identity, day) + TotalHeldBy(l.uploads, l.uploads[k].identity)
             <= limits.dailyQuotaBytes)
    && (forall key :: key in l.daily && key.1 == day ==> l.daily[key] <= limits.dailyQuotaBytes)
  }

  /**
   * Answers of the file system and the disk at start-up: the error with which the file test of a session
   * ends, if it does, and the safety margin at the end.
   */
  datatype FileAnswers = FileAnswers(errors: map<nat, LimitError>, margin: Option<LimitError>)

  /** The session is open and its file too large or failing. */
  predicate Unfit(uploads: seq<Upload>, maxFileBytes: nat, errors: map<nat, LimitError>, k: nat) {
    && k < |uploads|
    && IsOpen(uploads[k])
    && (uploads[k].reserved > maxFileBytes || k in errors)
  }

  /** It is the first one. */
  predicate FirstUnfit(uploads: seq<Upload>, maxFileBytes: nat, errors: map<nat, LimitError>, k: nat) {
    Unfit(uploads, maxFileBytes, errors, k) && forall j: nat :: j < k ==> !Unfit(uploads, maxFileBytes, errors, j)
  }

  /** The loop over the files of active sessions among the first n: a row too large is refused before its file is opened. */
  function FirstFileError(uploads: seq<Upload>, maxFileBytes: nat, errors: map<nat, LimitError>, n: nat): (r: Option<LimitError>)
    requires n <= |uploads|
    ensures r.None? <==> forall k :: 0 <= k < n && uploads[k].state.IsReserved() ==>
                           uploads[k].reserved <= maxFileBytes && k !in errors
  {
    if n == 0 then None
    else
      var earlier := FirstFileError(uploads, maxFileBytes, errors, n - 1);
      if earlier.Some? || !uploads[n - 1].state.IsReserved() then earlier
      else if uploads[n - 1].reserved > maxFileBytes then Some(ExistingCommitmentsExceedLimits)
      else Lookup(errors, n - 1)
  }

  /** The loop ends with the first session that does not fit. */
  lemma {:induction false} FirstUnfitDecides(uploads: seq<Upload>, maxFileBytes: nat, errors: map<nat, LimitError>, n: nat, k: nat)
    requires n <= |uploads| && k < n && FirstUnfit(uploads, maxFileBytes, errors, k)
    ensures FirstFileError(uploads, maxFileBytes, errors, n)
            == Some(if uploads[k].reserved > maxFileBytes then ExistingCommitmentsExceedLimits else errors[k])
    decreases n
  {
    if k < n - 1 {
      FirstUnfitDecides(uploads, maxFileBytes, errors, n - 1, k);
    } else {
      forall j: nat | j < k && uploads[j].state.IsReserved() ensures uploads[j].reserved <= maxFileBytes && j !in errors {
        assert !Unfit(uploads, maxFileBytes, errors, j);
      }
    }
  }

  /** The loop finds an error exactly if some session does not fit, and then that of the first one. */
  lemma FirstFileErrorIs(uploads: seq<Upload>, maxFileBytes: nat, errors: map<nat, LimitError>)
    ensures var error := FirstFileError(uploads, maxFileBytes, errors, |uploads|);
            && (error.None? <==> forall k: nat :: !Unfit(uploads, maxFileBytes, errors, k))
            && forall k: nat :: FirstUnfit(uploads, maxFileBytes, errors, k) ==>
                 error == Some(if uploads[k].reserved > maxFileBytes then ExistingCommitmentsExceedLimits else errors[k])
  {
    forall k: nat | FirstUnfit(uploads, maxFileBytes, errors, k)
      ensures FirstFileError(uploads, maxFileBytes, errors, |uploads|)
              == Some(if uploads[k].reserved > maxFileBytes then ExistingCommitmentsExceedLimits else errors[k])
    {
      FirstUnfitDecides(uploads, maxFileBytes, errors, |uploads|, k);
    }
  }

  /** `validate_startup_invariants`. */
  function ValidateStartup(l: Ledger, limits: Limits, secrets: seq<nat>, now: nat, files: FileAnswers): Step<()> {
    var active := TotalHeld(l.uploads);
    var file := FirstFileError(l.uploads, limits.maxFileBytes, files.errors, |l.uploads|);
    if active > limits.maxGlobalReserved then Failed(l, ExistingCommitmentsExceedLimits)
    else if file.Some? then Failed(l, file.value)
    else if !CommitmentsFit(l, limits, DayOf(now)) then Failed(l, ExistingCommitmentsExceedLimits)
    else if !SecretsRetained(l, secrets, DayOf(now)) then Failed(l, SecretRetentionRequired)
    else if active > 0 && files.margin.Some? then Failed(l, files.margin.value)
    else Step(Ok(()), l.(budget := active))
  }

  /** The transaction of `open` on a database of the current schema. */
  function Open(l: Ledger, limits: Limits, secrets: seq<nat>, now: nat, files: FileAnswers): Step<()> {
    if !limits.Valid() || |secrets| == 0 || |secrets| > 4 then Failed(l, InvalidConfiguration)
    else
      var recovered := Recover(l, None, MAX_STARTUP_SETTLEMENT_RECOVERIES, true, None);
      if recovered.result.Err? then Failed(l, recovered.result.error)
      else
        var expired := ExpireAbandoned(recovered.after, now, {});
        if expired.result.Err? then Failed(l, expired.result.error)
        else
          var validated := ValidateStartup(expired.after, limits, secrets, now, files);
          if validated.result.Err? then Failed(l, validated.result.error) else validated
  }
}
