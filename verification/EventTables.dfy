/**
 * The tables of the event store: job rows with their truncated event tables, artifacts and their
 * capabilities, and the outbox of files to remove.
 */
module EventTables {
  import opened Prelude
  import opened BigEndian
  import opened EventLog

  const MAX_ACTIVE_JOBS_AND_CLEANUPS: nat := 128
  const DEFAULT_JOB_LEASE_SECONDS: nat := 60
  const MAX_JOB_LEASE_SECONDS: nat := 86_400
  const MAX_PENDING_CLEANUPS: nat := 4096
  const MAX_LINK_CAPABILITY_ROWS: nat := 256

  datatype EventError =
    | JobNotFound | FutureRevision | JobExpired | Capacity | RevisionExhausted | InvalidRecord
    | IllegalTransition | CapabilityMissing | FilesystemError | StorageError

  /** A job row with the rows of its event table, which a deletion takes with it. */
  datatype Job = Job(
    revision: seq<Byte>,
    snapshot: Snapshot,
    retainUntil: nat,
    lease: nat,
    retention: nat,
    events: seq<Row>)

  datatype Scope = Status | EventsScope | Cancel | Download

  datatype Subject = OfJob(job: nat) | OfArtifact(artifact: nat)

  datatype Capability = Capability(subject: Subject, scopes: set<Scope>, expires: nat)

  datatype Artifact = Artifact(job: Option<nat>, path: nat, expires: nat, identity: nat)

  datatype Intent = Intent(path: nat, identity: nat, nextAttempt: nat)

  predicate IsExpired(job: Job, now: nat) {
    if job.snapshot.state.Terminal() then job.retainUntil <= now else job.lease <= now
  }

  function SaturatingAdd(now: nat, seconds: nat): nat {
    Min(now + seconds, SQL_MAX)
  }

  function RetentionSeconds(retainUntil: nat, now: nat): nat {
    if retainUntil > now then retainUntil - now else 1
  }

  /** A job counts against the capacity while its worker lease or its retention lasts. */
  predicate IsLive(job: Job, now: nat) {
    job.lease > now || job.retainUntil > now
  }

  function LiveJobs(jobs: map<nat, Job>, now: nat): set<nat> {
    set id | id in jobs && IsLive(jobs[id], now)
  }

  /** One stored row adds at most one job to those that count, and none if its job counted already. */
  lemma OneRowCounts(jobs: map<nat, Job>, id: nat, job: Job, now: nat)
    ensures |LiveJobs(jobs[id := job], now)| <= |LiveJobs(jobs, now)| + if id in LiveJobs(jobs, now) then 0 else 1
  {
    var before, after := LiveJobs(jobs, now), LiveJobs(jobs[id := job], now);
    var most := before + {id};
    assert most == after + (most - after);
    assert |after| <= |most|;
  }

  /** Artifacts that belong to no job and have not expired. */
  function LiveArtifacts(artifacts: map<nat, Artifact>, now: nat): set<nat> {
    set a | a in artifacts && artifacts[a].job.None? && artifacts[a].expires > now
  }

  /** How long the record of a job that ends now is kept. */
  function KeptUntil(job: Job, now: nat): nat {
    SaturatingAdd(now, if job.retention < 1 then 1 else job.retention)
  }

  /** A record kept for this long from now on, for a second at least. */
  function RecordEnd(retention: nat, now: nat): nat {
    if retention == 0 then Min(now + 1, SQL_MAX) else Min(now + retention, SQL_MAX)
  }

  function StateKind(state: JobState): string {
    match state
    case Completed => "job.completed"
    case Failed => "job.failed"
    case _ => "job.state_changed"
  }

  /** A job row stands for the history: its revision, its snapshot and its event table all follow from it. */
  ghost predicate Mirrors(job: Job, history: seq<Entry>) {
    && WellEnded(history)
    && job.revision == EncodeRevision(|history|)
    && job.events == Retained(history)
    && (history != [] ==> job.snapshot == history[|history| - 1].snapshot)
  }

  /** A committed job: it has a history, and it is terminal exactly when its worker lease is zero. */
  ghost predicate JobOk(job: Job, history: seq<Entry>) {
    && Mirrors(job, history)
    && history != []
    && (job.snapshot.state.Terminal() <==> job.lease == 0)
    && forall k :: 0 <= k < |history| ==> Telling(history[k])
  }

  /** The foreign key and the unique key of the artifact table. */
  ghost predicate LinksOk(artifacts: map<nat, Artifact>, ids: set<nat>) {
    && (forall a :: a in artifacts && artifacts[a].job.Some? ==> artifacts[a].job.value in ids)
    && (forall a, b :: a in artifacts && b in artifacts && artifacts[a].job.Some? && artifacts[a].job == artifacts[b].job ==>
          a == b)
  }

  /** Every job row stands for the full history of its appends, and the artifact table keeps its keys. */
  ghost predicate TablesOk(jobs: map<nat, Job>, history: map<nat, seq<Entry>>, artifacts: map<nat, Artifact>) {
    && jobs.Keys == history.Keys
    && (forall id :: id in jobs ==> JobOk(jobs[id], history[id]))
    && LinksOk(artifacts, jobs.Keys)
  }

  /** An active job is served while its worker lease lasts, an ended one as long as its record is kept. */
  predicate IsServed(job: Job, now: nat) {
    if job.snapshot.state.Active? then now < job.lease else now < job.retainUntil
  }

  /** An active job with a live worker lease and a revision to spare takes one more event. */
  predicate Extensible(job: Job, revision: nat, now: nat) {
    job.snapshot.state.Active? && now < job.lease && revision + 1 < U64_LIMIT
  }

  /** Why an event cannot be appended to a job. */
  predicate Refuses(jobs: map<nat, Job>, history: map<nat, seq<Entry>>, id: nat, now: nat, e: EventError) {
    || (e == JobNotFound && id !in jobs)
    || (e == JobExpired && id in jobs && !IsServed(jobs[id], now))
    || (e == IllegalTransition && id in jobs && !jobs[id].snapshot.state.Active?)
    || (e == RevisionExhausted && id in history && |history[id]| + 1 >= U64_LIMIT)
  }

  /** Jobs whose worker lease or record lasts, and unlinked artifacts that have not expired. */
  function CountedRecords(jobs: map<nat, Job>, artifacts: map<nat, Artifact>, now: nat): nat {
    |set id | id in jobs && (now < jobs[id].lease || now < jobs[id].retainUntil)|
    + |set a | a in artifacts && artifacts[a].job == None && now < artifacts[a].expires|
  }

  lemma CountedAre(jobs: map<nat, Job>, artifacts: map<nat, Artifact>, now: nat)
    ensures |LiveJobs(jobs, now)| + |LiveArtifacts(artifacts, now)| == CountedRecords(jobs, artifacts, now)
  {
    assert LiveJobs(jobs, now) == set id | id in jobs && (now < jobs[id].lease || now < jobs[id].retainUntil);
    assert LiveArtifacts(artifacts, now) == set a | a in artifacts && artifacts[a].job == None && now < artifacts[a].expires;
  }

  /** A terminal job took one append to become so, its last; so at most one row marks completion. */
  lemma OneTerminalAppend(job: Job, history: seq<Entry>)
    requires JobOk(job, history)
    ensures Decode(job.revision) == |history|
    ensures forall k :: 0 <= k < |history| && history[k].snapshot.state.Terminal() ==> k == |history| - 1
    ensures forall i, j :: 0 <= i < j < |job.events| ==> !(job.events[i].completion && job.events[j].completion)
    ensures job.snapshot.state.Terminal() <==> history[|history| - 1].snapshot.state.Terminal()
  {
    RevisionBlobs(|history|, 0);
    forall i | 0 <= i < |job.events| && job.events[i].completion ensures i == |job.events| - 1 {
      assert job.events[i] == AllRows(history)[Oldest(history) + i];
    }
  }

  // What revoking and linking do to the capability table and the outbox.

  /** The rows of the capability table about the job or the artifact. */
  function SubjectRows(caps: map<nat, Capability>, id: nat, a: nat): set<nat> {
    set t | t in caps && (caps[t].subject == OfJob(id) || caps[t].subject == OfArtifact(a))
  }

  /** An intent to remove the file of an artifact; one that is already there stays as it is. */
  function WithIntent(outbox: map<(Option<nat>, nat), Intent>, key: (Option<nat>, nat), artifact: Artifact, now: nat)
    : map<(Option<nat>, nat), Intent>
  {
    if key in outbox then outbox else outbox[key := Intent(artifact.path, artifact.identity, now)]
  }

  /** Every capability of the subject expires at once. */
  function RevokedFor(caps: map<nat, Capability>, subject: Subject): map<nat, Capability> {
    map t | t in caps :: if caps[t].subject == subject then caps[t].(expires := 0) else caps[t]
  }

  /** A completed job whose record has not lapsed, and an artifact that is to live. */
  predicate Linkable(job: Job, expires: nat, now: nat) {
    job.snapshot.state == Completed && job.retainUntil > now && expires > now
  }

  /** Neither the artifact nor an artifact of the job is stored yet. */
  predicate Unlinked(artifacts: map<nat, Artifact>, id: nat, a: nat) {
    a !in artifacts && forall b :: b in artifacts ==> artifacts[b].job != Some(id)
  }

  /** Linking a first artifact keeps the tables in order, and so does shortening the record's retention. */
  lemma LinkKeepsOk(jobs: map<nat, Job>, history: map<nat, seq<Entry>>, artifacts: map<nat, Artifact>,
                    id: nat, a: nat, artifact: Artifact, retainUntil: nat)
    requires TablesOk(jobs, history, artifacts) && id in jobs && Unlinked(artifacts, id, a) && artifact.job == Some(id)
    ensures TablesOk(jobs[id := jobs[id].(retainUntil := retainUntil)], history, artifacts[a := artifact])
  {
    var next := jobs[id := jobs[id].(retainUntil := retainUntil)];
    assert next.Keys == jobs.Keys;
    assert JobOk(jobs[id], history[id]);
  }

  /** At most 256 capabilities of the two to look at, and live ones for status, events and download among them. */
  predicate CapabilitiesReady(caps: map<nat, Capability>, id: nat, a: nat, now: nat) {
    && |set t | t in caps && (caps[t].subject == OfJob(id) || caps[t].subject == OfArtifact(a))| <= 256
    && IsGranted(caps, OfJob(id), Status, now)
    && IsGranted(caps, OfJob(id), EventsScope, now)
    && IsGranted(caps, OfArtifact(a), Download, now)
  }

  /** Some live capability of the subject carries the scope. */
  predicate IsGranted(caps: map<nat, Capability>, subject: Subject, scope: Scope, now: nat) {
    exists t :: t in caps && caps[t].subject == subject && scope in caps[t].scopes && now < caps[t].expires
  }

  /** The live capabilities the link depends on: for status or events of the job, and for download of the artifact. */
  function LinkCapabilities(caps: map<nat, Capability>, id: nat, a: nat, now: nat): set<nat> {
    set t | t in caps && now < caps[t].expires
            && ((caps[t].subject == OfJob(id) && (Status in caps[t].scopes || EventsScope in caps[t].scopes))
                || (caps[t].subject == OfArtifact(a) && Download in caps[t].scopes))
  }

  /** The common expiry: the proposed one, or the earliest of the live capabilities if that comes first. */
  ghost predicate IsEarliest(caps: map<nat, Capability>, id: nat, a: nat, now: nat, proposed: nat, common: nat) {
    && common <= proposed
    && (forall t :: t in LinkCapabilities(caps, id, a, now) ==> common <= caps[t].expires)
    && (common == proposed || exists t :: t in LinkCapabilities(caps, id, a, now) && caps[t].expires == common)
  }

  /** The test of one capability row. */
  predicate IsLinkCapability(cap: Capability, id: nat, a: nat, now: nat) {
    && cap.expires > now
    && (if cap.subject == OfJob(id) then Status in cap.scopes || EventsScope in cap.scopes
        else cap.subject == OfArtifact(a) && Download in cap.scopes)
  }

  /** Some capability that passes the test, of the job, or of the artifact for a download, carries the scope. */
  predicate HasScope(caps: map<nat, Capability>, id: nat, a: nat, now: nat, scope: Scope) {
    exists t :: t in LinkCapabilities(caps, id, a, now) && GrantsScope(caps[t], id, scope)
  }

  predicate GrantsScope(cap: Capability, id: nat, scope: Scope) {
    scope in cap.scopes && (cap.subject == OfJob(id) <==> scope != Download)
  }

  /** The scopes seen on the chosen rows are those granted. */
  lemma ScopesGranted(caps: map<nat, Capability>, id: nat, a: nat, now: nat)
    ensures HasScope(caps, id, a, now, Status) <==> IsGranted(caps, OfJob(id), Status, now)
    ensures HasScope(caps, id, a, now, EventsScope) <==> IsGranted(caps, OfJob(id), EventsScope, now)
    ensures HasScope(caps, id, a, now, Download) <==> IsGranted(caps, OfArtifact(a), Download, now)
  {
    forall t | t in caps && now < caps[t].expires
      ensures caps[t].subject == OfJob(id) && Status in caps[t].scopes ==> HasScope(caps, id, a, now, Status)
      ensures caps[t].subject == OfJob(id) && EventsScope in caps[t].scopes ==> HasScope(caps, id, a, now, EventsScope)
      ensures caps[t].subject == OfArtifact(a) && Download in caps[t].scopes ==> HasScope(caps, id, a, now, Download)
    {
      assert t in LinkCapabilities(caps, id, a, now) || caps[t].subject != OfJob(id) || Status !in caps[t].scopes;
    }
  }

  /** The capabilities in `chosen` expire at the common time, unless they already expire earlier. */
  function Shortened(caps: map<nat, Capability>, chosen: set<nat>, common: nat): map<nat, Capability> {
    map t | t in caps :: if t in chosen then caps[t].(expires := Min(caps[t].expires, common)) else caps[t]
  }

  /** The chosen capabilities now expire at the common time, none later than before; the others are as they were. */
  ghost predicate AlignedAt(before: map<nat, Capability>, after: map<nat, Capability>, chosen: set<nat>, common: nat) {
    && after.Keys == before.Keys
    && (forall t :: t in before && t in chosen ==>
          after[t] == before[t].(expires := common) && common <= before[t].expires)
    && (forall t :: t in before && t !in chosen ==> after[t] == before[t])
  }

  /** Shortening to the earliest expiry aligns the capabilities the link depends on. */
  lemma ShortenedAligns(caps: map<nat, Capability>, id: nat, a: nat, now: nat, proposed: nat, common: nat)
    requires IsEarliest(caps, id, a, now, proposed, common)
    ensures var chosen := LinkCapabilities(caps, id, a, now);
            AlignedAt(caps, Shortened(caps, chosen, common), chosen, common)
  {
    var chosen := LinkCapabilities(caps, id, a, now);
    assert Shortened(caps, chosen, common).Keys == caps.Keys;
  }
}
