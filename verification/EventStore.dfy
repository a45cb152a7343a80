/**
 * The durable event store: job rows, their truncated event tables, linked artifacts and their
 * capabilities. Each public method is one transaction; an error leaves every table as it was.
 */
module EventStores {
  import opened Prelude
  import opened BigEndian
  import opened EventLog
  import opened EventTables
  import opened EventReconciliation

  /**
   * `append_in_transaction` on one job row: adds one event, advances the revision by one and deletes the
   * rows that fall out of the window. It does not itself keep a job that has ended from going on; the row
   * stands for the longer history exactly when the job had not ended, or is only being created.
   */
  method AppendEvent(job: Job, ghost past: seq<Entry>, kind: string, payload: nat, snapshot: Snapshot,
                     allowTerminal: bool, allowStale: bool, now: nat) returns (r: Result<Job, EventError>)
    requires Mirrors(job, past)
    ensures r.Ok? <==>
              && (job.snapshot.state.Terminal() ==> allowTerminal)
              && (allowStale || IsServed(job, now))
              && |past| + 1 < U64_LIMIT
    ensures r.Err? ==>
              || (r.error == IllegalTransition && job.snapshot.state.Terminal() && !allowTerminal)
              || (r.error == JobExpired && !allowStale && !IsServed(job, now))
              || (r.error == RevisionExhausted && |past| + 1 >= U64_LIMIT)
    ensures r.Ok? ==>
              && (Mirrors(r.value, past + [Entry(kind, payload, snapshot)]) <==> past == [] || !job.snapshot.state.Terminal())
              && r.value == job.(revision := EncodeRevision(|past| + 1), snapshot := snapshot, events := r.value.events)
              && r.value.events == Truncate(job.events + [RowOf(|past| + 1, Entry(kind, payload, snapshot))])
  {
    if job.snapshot.state.Terminal() && !allowTerminal { return Err(IllegalTransition); }
    if !allowStale && IsExpired(job, now) { return Err(JobExpired); }
    RevisionBlobs(|past|, |past|);
    var next := Decode(job.revision) + 1;
    if next >= U64_LIMIT { return Err(RevisionExhausted); }
    ghost var entry := Entry(kind, payload, snapshot);
    if past == [] || !job.snapshot.state.Terminal() {
      RetainedAppend(past, entry);
    } else {
      EndedForGood(past, entry);
    }
    var row := Row(EncodeRevision(next), kind, payload, snapshot.state == Completed);
    r := Ok(job.(revision := EncodeRevision(next), snapshot := snapshot, events := Truncate(job.events + [row])));
  }

  /** Appends the event that ends an active job; its record is then kept until `retainUntil`. */
  method EndJob(job: Job, ghost past: seq<Entry>, kind: string, snapshot: Snapshot,
                retainUntil: nat, retention: nat, allowStale: bool, now: nat) returns (r: Result<Job, EventError>)
    requires JobOk(job, past) && !job.snapshot.state.Terminal() && snapshot.state.Terminal()
    requires Telling(Entry(kind, snapshot.data, snapshot))
    ensures r.Ok? <==> (allowStale || IsServed(job, now)) && |past| + 1 < U64_LIMIT
    ensures r.Err? ==>
              || (r.error == JobExpired && !allowStale && !IsServed(job, now))
              || (r.error == RevisionExhausted && |past| + 1 >= U64_LIMIT)
    ensures r.Ok? ==>
              && JobOk(r.value, past + [Entry(kind, snapshot.data, snapshot)])
              && r.value.snapshot == snapshot && r.value.retainUntil == retainUntil && r.value.retention == retention
  {
    r := AppendEvent(job, past, kind, snapshot.data, snapshot, true, allowStale, now);
    if r.Ok? {
      r := Ok(r.value.(retainUntil := retainUntil, lease := 0, retention := retention));
    }
  }

  class EventStore {
    var jobs: map<nat, Job>
    var artifacts: map<nat, Artifact>
    var caps: map<nat, Capability>
    var outbox: map<(Option<nat>, nat), Intent>
    ghost var history: map<nat, seq<Entry>>

    ghost predicate Valid()
      reads this
    {
      TablesOk(jobs, history, artifacts)
    }

    /** The one job row that changed, and the history it now stands for. */
    twostate predicate Became(id: nat, new entries: seq<Entry>)
      reads this
    {
      && history == old(history)[id := entries]
      && id in jobs && jobs == old(jobs)[id := jobs[id]]
    }

    ghost function Contents(): Tables
      reads this
    {
      Tables(jobs, history, artifacts, caps, outbox)
    }

    constructor ()
      ensures Valid() && jobs == map[] && history == map[] && artifacts == map[]
    {
      jobs, artifacts, caps, outbox, history := map[], map[], map[], map[], map[];
    }

    /** Appends an event of a running worker; it can neither end a job nor revive one. */
    method Append(id: nat, kind: string, payload: nat, snapshot: Snapshot, now: nat) returns (r: Result<nat, EventError>)
      requires Valid()
      modifies this`jobs, this`history
      ensures Valid()
      ensures r.Err? ==> jobs == old(jobs) && history == old(history)
      ensures r.Ok? <==>
                && kind != "job.completed" && kind != "job.failed" && !snapshot.state.Terminal()
                && id in old(jobs) && Extensible(old(jobs)[id], |old(history)[id]|, now)
      ensures r.Ok? ==>
                && Became(id, old(history)[id] + [Entry(kind, payload, snapshot)])
                && r.value == |history[id]|
                && jobs[id] == old(jobs)[id].(revision := jobs[id].revision, snapshot := snapshot, events := jobs[id].events)
      ensures r.Err? ==>
                || (r.error == IllegalTransition
                    && (kind == "job.completed" || kind == "job.failed" || snapshot.state.Terminal()))
                || Refuses(old(jobs), old(history), id, now, r.error)
    {
      if kind == "job.completed" || kind == "job.failed" { return Err(IllegalTransition); }
      if snapshot.state.Terminal() { return Err(IllegalTransition); }
      if id !in jobs { return Err(JobNotFound); }
      if jobs[id].snapshot.state.Terminal() { return Err(IllegalTransition); }
      var appended := AppendEvent(jobs[id], history[id], kind, payload, snapshot, false, false, now);
      if appended.Err? { return Err(appended.error); }
      RevisionBlobs(|history[id]| + 1, 0);
      r := Ok(Decode(appended.value.revision));
      StoreJob(id, appended.value, history[id] + [Entry(kind, payload, snapshot)]);
    }

    /** Jobs and unlinked artifacts still within their time. */
    function ActiveRecords(now: nat): nat
      reads this
    {
      |LiveJobs(jobs, now)| + |LiveArtifacts(artifacts, now)|
    }

    /** Creates a job or moves it to a state; repeating the current state only renews the lease. */
    method RegisterState(id: nat, state: JobState, data: nat, retainUntil: nat, now: nat) returns (r: Result<nat, EventError>)
      requires Valid() && 0 < now < SQL_MAX
      modifies this`jobs, this`history
      ensures Valid()
      ensures r.Err? ==> jobs == old(jobs) && history == old(history)
      ensures r.Ok? <==>
                if id !in old(jobs)
                then CountedRecords(old(jobs), old(artifacts), now) < 128 && (state.Terminal() ==> retainUntil > now)
                else if old(jobs)[id].snapshot.state == state then IsServed(old(jobs)[id], now)
                else Extensible(old(jobs)[id], |old(history)[id]|, now)
      ensures r.Ok? ==> id in jobs && r.value == |history[id]| && jobs[id].snapshot.state == state
      ensures r.Ok? && (id in old(jobs) ==> old(jobs)[id].snapshot.state != state) ==>
                history[id][|history[id]| - 1].kind
                == match state {
                     case Completed => "job.completed"
                     case Failed => "job.failed"
                     case Cancelled => "job.state_changed"
                     case Active(_) => "job.state_changed"
                   }
      ensures r.Ok? && !state.Terminal() ==> jobs[id].lease == Min(now + 60, SQL_MAX)
      ensures r.Ok? && (state.Terminal() && id in old(jobs) ==> old(jobs)[id].snapshot.state != state) ==>
                jobs[id].retention == (if retainUntil > now then retainUntil - now else 1)
      ensures r.Err? ==>
                || (r.error == Capacity && id !in old(jobs) && CountedRecords(old(jobs), old(artifacts), now) >= 128)
                || (r.error == JobExpired && id !in old(jobs) && state.Terminal() && retainUntil <= now)
                || (id in old(jobs) && Refuses(old(jobs), old(history), id, now, r.error))
      ensures r.Ok? && id !in old(jobs) ==>
                Became(id, [Entry(StateKind(state), data, Snapshot(state, data))]) && jobs[id].retainUntil == retainUntil
      ensures r.Ok? && id in old(jobs) && old(jobs)[id].snapshot.state == state ==>
                && Became(id, old(history)[id])
                && jobs[id] == if state.Terminal() then old(jobs)[id]
                               else old(jobs)[id].(lease := jobs[id].lease, retention := jobs[id].retention)
      ensures r.Ok? && id in old(jobs) && old(jobs)[id].snapshot.state != state ==>
                && Became(id, old(history)[id] + [Entry(StateKind(state), data, Snapshot(state, data))])
                && jobs[id].retainUntil == if state.Terminal() then retainUntil else old(jobs)[id].retainUntil
      ensures ActiveRecords(now) <= old(ActiveRecords(now)) || ActiveRecords(now) <= 128
    {
      ghost var before := jobs;
      CountedAre(jobs, artifacts, now);
      if id in jobs {
        r := MoveState(id, state, data, retainUntil, now);
      } else {
        if ActiveRecords(now) >= MAX_ACTIVE_JOBS_AND_CLEANUPS { return Err(Capacity); }
        r := CreateJob(id, state, data, retainUntil, now);
      }
      if r.Ok? { OneRowCounts(before, id, jobs[id], now); }
    }

    /** The branch of `RegisterState` for a new job: an ended one whose record would have lapsed is refused. */
    method CreateJob(id: nat, state: JobState, data: nat, retainUntil: nat, now: nat) returns (r: Result<nat, EventError>)
      requires Valid() && 0 < now < SQL_MAX && id !in jobs
      modifies this`jobs, this`history
      ensures Valid()
      ensures r.Err? ==> jobs == old(jobs) && history == old(history) && r.error == JobExpired
      ensures r.Ok? <==> (state.Terminal() ==> retainUntil > now)
      ensures r.Ok? ==>
                && Became(id, [Entry(StateKind(state), data, Snapshot(state, data))])
                && r.value == 1 && jobs[id].snapshot.state == state
                && jobs[id].lease == (if state.Terminal() then 0 else Min(now + 60, SQL_MAX))
                && jobs[id].retention == (if retainUntil > now then retainUntil - now else 1)
                && jobs[id].retainUntil == retainUntil
    {
      var entry := Entry(StateKind(state), data, Snapshot(state, data));
      var lease := SaturatingAdd(now, DEFAULT_JOB_LEASE_SECONDS);
      var retention := RetentionSeconds(retainUntil, now);
      var job := Job(EncodeRevision(0), entry.snapshot, retainUntil, if state.Terminal() then 0 else lease, retention, []);
      r := StoreState(id, job, [], entry, retainUntil, retention, lease, now);
      assert [] + [entry] == [entry];
    }

    /** The branch of `RegisterState` for a job that exists. */
    method MoveState(id: nat, state: JobState, data: nat, retainUntil: nat, now: nat) returns (r: Result<nat, EventError>)
      requires Valid() && 0 < now < SQL_MAX && id in jobs
      modifies this`jobs, this`history
      ensures Valid()
      ensures r.Err? ==> jobs == old(jobs) && history == old(history)
      ensures r.Ok? <==>
                if old(jobs)[id].snapshot.state == state then IsServed(old(jobs)[id], now)
                else Extensible(old(jobs)[id], |old(history)[id]|, now)
      ensures r.Ok? ==> id in jobs && r.value == |history[id]| && jobs[id].snapshot.state == state
      ensures r.Ok? && !state.Terminal() ==> jobs[id].lease == Min(now + 60, SQL_MAX)
      ensures r.Ok? && (state.Terminal() ==> old(jobs)[id].snapshot.state != state) ==>
                jobs[id].retention == (if retainUntil > now then retainUntil - now else 1)
      ensures r.Err? ==> Refuses(old(jobs), old(history), id, now, r.error)
      ensures r.Ok? && old(jobs)[id].snapshot.state == state ==>
                && Became(id, old(history)[id])
                && jobs[id] == if state.Terminal() then old(jobs)[id]
                               else old(jobs)[id].(lease := jobs[id].lease, retention := jobs[id].retention)
      ensures r.Ok? && old(jobs)[id].snapshot.state != state ==>
                && Became(id, old(history)[id] + [Entry(StateKind(state), data, Snapshot(state, data))])
                && jobs[id].retainUntil == if state.Terminal() then retainUntil else old(jobs)[id].retainUntil
    {
      var lease := SaturatingAdd(now, DEFAULT_JOB_LEASE_SECONDS);
      var retention := RetentionSeconds(retainUntil, now);
      if IsExpired(jobs[id], now) { return Err(JobExpired); }
      if jobs[id].snapshot.state == state {
        r := KeepState(id, lease, retention);
        return;
      }
      if jobs[id].snapshot.state.Terminal() { return Err(IllegalTransition); }
      var entry := Entry(StateKind(state), data, Snapshot(state, data));
      r := StoreState(id, jobs[id], history[id], entry, retainUntil, retention, lease, now);
    }

    /** A repeated registration renews the lease of an active job, and leaves an ended one as it is. */
    method KeepState(id: nat, lease: nat, retention: nat) returns (r: Result<nat, EventError>)
      requires Valid() && id in jobs && lease > 0
      modifies this`jobs, this`history
      ensures Valid() && history == old(history) && r == Ok(|old(history)[id]|)
      ensures jobs == old(jobs)[id := if old(jobs)[id].snapshot.state.Terminal() then old(jobs)[id]
                                      else old(jobs)[id].(lease := lease, retention := retention)]
    {
      RevisionBlobs(|history[id]|, 0);
      var job := jobs[id];
      if !job.snapshot.state.Terminal() {
        job := job.(lease := lease, retention := retention);
      }
      r := Ok(Decode(job.revision));
      StoreJob(id, job, history[id]);
    }

    /** Appends the state change and stores the row with its new lease or retention. */
    method StoreState(id: nat, job: Job, ghost past: seq<Entry>, entry: Entry,
                      retainUntil: nat, retention: nat, lease: nat, now: nat) returns (r: Result<nat, EventError>)
      requires Valid() && Mirrors(job, past) && lease > 0
      requires Telling(entry) && forall k :: 0 <= k < |past| ==> Telling(past[k])
      requires past != [] ==> !job.snapshot.state.Terminal()
      modifies this`jobs, this`history
      ensures Valid()
      ensures r.Err? ==> jobs == old(jobs) && history == old(history)
      ensures r.Ok? <==>
                && (job.snapshot.state.Terminal() ==> entry.snapshot.state.Terminal())
                && IsServed(job, now) && |past| + 1 < U64_LIMIT
      ensures r.Err? ==>
                || (r.error == IllegalTransition && job.snapshot.state.Terminal() && !entry.snapshot.state.Terminal())
                || (r.error == JobExpired && !IsServed(job, now))
                || (r.error == RevisionExhausted && |past| + 1 >= U64_LIMIT)
      ensures r.Ok? ==>
                && Became(id, past + [entry])
                && r.value == |past| + 1
                && jobs[id].snapshot == entry.snapshot
                && jobs[id].lease == (if entry.snapshot.state.Terminal() then 0 else lease)
                && jobs[id].retention == retention
                && jobs[id].retainUntil == if entry.snapshot.state.Terminal() then retainUntil else job.retainUntil
    {
      var terminal := entry.snapshot.state.Terminal();
      var appended := AppendEvent(job, past, entry.kind, entry.payload, entry.snapshot, terminal, false, now);
      if appended.Err? { return Err(appended.error); }
      RevisionBlobs(|past| + 1, 0);
      var row := appended.value;
      r := Ok(Decode(row.revision));
      row := if terminal then row.(retainUntil := retainUntil, lease := 0, retention := retention)
             else row.(lease := lease, retention := retention);
      StoreJob(id, row, past + [entry]);
    }

    /** Ends an active job as cancelled; repeating it is idempotent, any other ended job is left alone. */
    method CancelJob(id: nat, data: nat, now: nat) returns (r: Result<nat, EventError>)
      requires Valid()
      modifies this`jobs, this`history
      ensures Valid()
      ensures r.Err? ==> jobs == old(jobs) && history == old(history)
      ensures r.Ok? <==>
                && id in old(jobs)
                && if old(jobs)[id].snapshot.state == Cancelled then IsServed(old(jobs)[id], now)
                   else Extensible(old(jobs)[id], |old(history)[id]|, now)
      ensures r.Ok? ==> id in jobs && r.value == |history[id]| && jobs[id].snapshot.state == Cancelled && jobs[id].lease == 0
      ensures r.Ok? && old(jobs)[id].snapshot.state == Cancelled ==> jobs == old(jobs) && history == old(history)
      ensures r.Ok? && old(jobs)[id].snapshot.state != Cancelled ==>
                && Became(id, old(history)[id] + [Entry("job.state_changed", data, Snapshot(Cancelled, data))])
                && jobs[id].retainUntil == RecordEnd(old(jobs)[id].retention, now)
                && jobs[id].retention == old(jobs)[id].retention
      ensures r.Err? ==> Refuses(old(jobs), old(history), id, now, r.error)
    {
      if id !in jobs { return Err(JobNotFound); }
      var job := jobs[id];
      RevisionBlobs(|history[id]|, 0);
      if IsExpired(job, now) { return Err(JobExpired); }
      if job.snapshot.state == Cancelled { return Ok(Decode(job.revision)); }
      if job.snapshot.state.Terminal() { return Err(IllegalTransition); }
      var snapshot := Snapshot(Cancelled, data);
      ghost var entries := history[id] + [Entry("job.state_changed", data, snapshot)];
      var ended := EndJob(job, history[id], "job.state_changed", snapshot, KeptUntil(job, now), job.retention, false, now);
      if ended.Err? { return Err(ended.error); }
      RevisionBlobs(|entries|, 0);
      r := Ok(Decode(ended.value.revision));
      StoreJob(id, ended.value, entries);
    }

    /** Stores one job row with the history it stands for. */
    method StoreJob(id: nat, job: Job, ghost entries: seq<Entry>)
      requires Valid() && JobOk(job, entries)
      modifies this`jobs, this`history
      ensures Valid()
      ensures jobs == old(jobs)[id := job] && history == old(history)[id := entries]
    {
      jobs := jobs[id := job];
      history := history[id := entries];
    }

    /** Extends a live worker lease; an ended job or a lapsed lease stays as it is. */
    method RenewWorkerLease(id: nat, seconds: nat, now: nat) returns (r: Result<nat, EventError>)
      requires Valid() && now < SQL_MAX
      modifies this`jobs
      ensures Valid()
      ensures r.Ok? <==>
                && 0 < seconds <= 86_400 && id in old(jobs)
                && !old(jobs)[id].snapshot.state.Terminal() && old(jobs)[id].lease > now
      ensures jobs == if r.Ok? then old(jobs)[id := old(jobs)[id].(lease := r.value)] else old(jobs)
      ensures r.Ok? ==> now < r.value == Min(now + seconds, SQL_MAX)
      ensures r.Err? ==>
                || (r.error == InvalidRecord && (seconds == 0 || seconds > 86_400))
                || (r.error == JobNotFound && id !in old(jobs))
                || (r.error == IllegalTransition && id in old(jobs)
                    && (old(jobs)[id].snapshot.state.Terminal() || old(jobs)[id].lease <= now))
    {
      if seconds == 0 || seconds > MAX_JOB_LEASE_SECONDS { return Err(InvalidRecord); }
      if id !in jobs { return Err(JobNotFound); }
      if jobs[id].snapshot.state.Terminal() || jobs[id].lease <= now { return Err(IllegalTransition); }
      var lease := SaturatingAdd(now, seconds);
      jobs := jobs[id := jobs[id].(lease := lease)];
      r := Ok(lease);
    }

    /**
     * Replays what a client has not seen. The answer read from the truncated table is the one the
     * full history would give.
     */
    method ReplayAfter(id: nat, last: nat, now: nat) returns (r: Result<Replay, EventError>)
      requires Valid() && last < U64_LIMIT
      ensures r.Ok? <==> id in jobs && IsServed(jobs[id], now) && last <= |history[id]|
      ensures r.Ok? ==> r.value == Answer(history[id], last)
      ensures r.Ok? ==> Replays(history[id], last, r.value)
      ensures r.Err? ==>
                || (r.error == JobNotFound && id !in jobs)
                || (r.error == JobExpired && id in jobs && !IsServed(jobs[id], now))
                || (r.error == FutureRevision && id in jobs && last > |history[id]|)
    {
      if id !in jobs { return Err(JobNotFound); }
      if IsExpired(jobs[id], now) { return Err(JobExpired); }
      if last <= |history[id]| { AnswerReplays(history[id], last); }
      r := ReplayJob(jobs[id], history[id], last);
    }

    // Reconciliation of lapsed jobs.

    /** `expire_capability_subject`. */
    method RevokeSubject(subject: Subject)
      modifies this`caps
      ensures caps == RevokedFor(old(caps), subject)
    {
      caps := RevokedFor(caps, subject);
    }

    /** Fails an active job whose worker lease has lapsed. */
    method FailStaleJob(id: nat, data: nat, now: nat) returns (r: Result<(), EventError>)
      requires Valid() && id in jobs && !jobs[id].snapshot.state.Terminal()
      modifies this`jobs, this`history
      ensures Valid()
      ensures r.Ok? <==> old(jobs[id].lease) <= now ==> |old(history)[id]| + 1 < U64_LIMIT
      ensures r.Err? ==> r.error == RevisionExhausted
      ensures if r.Ok? && old(jobs[id].lease) <= now then FailedOne(old(Contents()), Contents(), id, data, now)
              else Contents() == old(Contents())
    {
      if jobs[id].lease > now { return Ok(()); }
      var job, snapshot := jobs[id], Snapshot(Failed, data);
      var ended := EndJob(job, history[id], "job.failed", snapshot, KeptUntil(job, now), job.retention, true, now);
      if ended.Err? { return Err(ended.error); }
      StoreJob(id, ended.value, history[id] + [Entry("job.failed", data, snapshot)]);
      r := Ok(());
    }

    /** The artifact linked to a job, if there is one. */
    method FindLinked(id: nat) returns (artifact: Option<nat>)
      requires Valid()
      ensures IsLinked(artifacts, id, artifact)
    {
      if exists a :: a in artifacts && artifacts[a].job == Some(id) {
        var a :| a in artifacts && artifacts[a].job == Some(id);
        artifact := Some(a);
      } else {
        artifact := None;
      }
    }

    /**
     * Retires an ended job whose record has lapsed: its capabilities are revoked, and a linked
     * artifact leaves a cleanup intent bound to its file identity. Without room for the intent
     * everything stays together.
     */
    method RetireJob(id: nat, now: nat) returns (artifact: Option<nat>)
      requires Valid() && id in jobs && jobs[id].snapshot.state.Terminal()
      modifies this
      ensures Valid()
      ensures IsLinked(old(artifacts), id, artifact)
      ensures Contents() == if old(jobs[id].retainUntil) > now then old(Contents())
                            else RetiredOne(old(Contents()), id, artifact, now)
    {
      artifact := FindLinked(id);
      if jobs[id].retainUntil > now { return; }
      if artifact.Some? && |outbox| >= MAX_PENDING_CLEANUPS { return; }
      RetireKeepsOk(jobs, history, artifacts, id, artifact);
      RevokeSubject(OfJob(id));
      if artifact.Some? {
        RetireArtifact(id, artifact.value, now);
      }
      jobs := jobs - {id};
      history := history - {id};
    }

    /** Revokes the downloads of a linked artifact and records the intent to remove its file. */
    method RetireArtifact(id: nat, a: nat, now: nat)
      requires a in artifacts
      modifies this`caps, this`outbox, this`artifacts
      ensures artifacts == old(artifacts) - {a}
      ensures caps == RevokedFor(old(caps), OfArtifact(a))
      ensures outbox == WithIntent(old(outbox), (Some(id), a), old(artifacts)[a], now)
    {
      RevokeSubject(OfArtifact(a));
      var key := (Some(id), a);
      if key !in outbox {
        outbox := outbox[key := Intent(artifacts[a].path, artifacts[a].identity, now)];
      }
      artifacts := artifacts - {a};
    }

    /** One job that was selected as lapsed; the answer says whether its record went. */
    method ReconcileJob(id: nat, data: nat, now: nat) returns (r: Result<bool, EventError>, ghost artifact: Option<nat>)
      requires Valid() && id in jobs && Lapsed(jobs[id], now)
      modifies this
      ensures Valid()
      ensures r.Ok? <==> Failable(old(Contents()), id)
      ensures if r.Ok? then OneReconciled(old(Contents()), Contents(), id, artifact, data, now)
              else Contents() == old(Contents())
      ensures r.Ok? ==> jobs.Keys == old(jobs).Keys - if r.value then {id} else {}
    {
      artifact := None;
      if !jobs[id].snapshot.state.Terminal() {
        var failed := FailStaleJob(id, data, now);
        r := if failed.Ok? then Ok(false) else Err(failed.error);
      } else {
        artifact := RetireJob(id, now);
        r := Ok(id !in jobs);
      }
    }

    /** The next job of a batch that started from `start` and has come through `done`. */
    method ReconcileNext(id: nat, data: nat, now: nat, ghost start: Tables, ghost done: seq<nat>)
      returns (r: Result<bool, EventError>)
      requires Valid() && Progress(start, Contents(), done, data, now)
      requires id !in done && id in start.jobs && id in start.history && Lapsed(start.jobs[id], now)
      modifies this
      ensures Valid()
      ensures r.Ok? <==> Failable(start, id)
      ensures r.Ok? ==> Progress(start, Contents(), done + [id], data, now)
      ensures r.Ok? ==> id in old(jobs) && jobs.Keys == old(jobs).Keys - if r.value then {id} else {}
    {
      ghost var before := Contents();
      ghost var artifact;
      NotYetReached(start, before, done, data, now, id);
      r, artifact := ReconcileJob(id, data, now);
      if r.Ok? {
        BatchStep(start, before, Contents(), done, id, artifact, data, now);
        FollowStep(start, before, Contents(), id, artifact, data, now);
      }
    }

    /** The loop of `reconcile_expired` over the jobs it selected; it stops at the first error. */
    method ReconcileSelected(selected: seq<nat>, data: nat, now: nat) returns (r: Result<nat, EventError>)
      requires Valid()
      requires Selection(jobs, selected, now)
      modifies this
      ensures r.Ok? <==> AllFailable(old(Contents()), selected)
      ensures r.Ok? ==> Valid() && Progress(old(Contents()), Contents(), selected, data, now)
      ensures r.Ok? ==> r.value == Gone(old(jobs), jobs)
    {
      ghost var start, done: seq<nat> := Contents(), [];
      var expired := 0;
      NoProgressYet(start, data, now);
      for i := 0 to |selected|
        invariant Valid()
        invariant AllFailable(start, done)
        invariant done == selected[..i] && Progress(start, Contents(), done, data, now)
        invariant expired == Gone(start.jobs, jobs) && jobs.Keys <= start.jobs.Keys
      {
        ghost var before := jobs;
        SelectedNext(start.jobs, selected, now, i);
        FailableNext(start, selected, i);
        var next := ReconcileNext(selected[i], data, now, start, done);
        if next.Err? { return Err(next.error); }
        GoneStep(start.jobs, before, jobs, selected[i], next.value);
        done := done + [selected[i]];
        expired := if next.value then expired + 1 else expired;
      }
      TakeAll(selected);
      r := Ok(expired);
    }

    /**
     * Reconciliation of the selected jobs in one transaction: each lapsed active job fails, each lapsed
     * record goes with its artifact and its capabilities unless the outbox is full, and nothing else
     * changes. An error rolls everything back.
     */
    method ReconcileJobs(selected: seq<nat>, data: nat, now: nat) returns (r: Result<nat, EventError>)
      requires Valid()
      requires Selection(jobs, selected, now)
      modifies this
      ensures Valid()
      ensures r.Ok? <==> AllFailable(old(Contents()), selected)
      ensures r.Ok? ==> Progress(old(Contents()), Contents(), selected, data, now) && r.value == Gone(old(jobs), jobs)
      ensures r.Ok? && now < SQL_MAX ==> ActiveRecords(now) == old(ActiveRecords(now)) + |Revived(old(jobs), selected, now)|
      ensures r.Err? ==> Contents() == old(Contents())
    {
      var jobs0, artifacts0, caps0, outbox0 := jobs, artifacts, caps, outbox;
      ghost var history0 := history;
      r := ReconcileSelected(selected, data, now);
      if r.Err? {
        jobs, artifacts, caps, outbox, history := jobs0, artifacts0, caps0, outbox0, history0;
      } else if now < SQL_MAX {
        BatchRaisesRecords(old(Contents()), Contents(), selected, data, now);
      }
    }

    /**
     * A whole reconciliation of jobs: of those that have lapsed, and may be looked at while the outbox is as
     * full as it is, the 32 that lapsed first.
     */
    method ReconcileExpired(data: nat, now: nat) returns (r: Result<nat, EventError>, ghost selected: seq<nat>)
      requires Valid()
      modifies this
      ensures Valid()
      ensures IsSelection(old(jobs), old(artifacts), |old(outbox)| >= 4096, now, selected)
      ensures r.Ok? <==> AllFailable(old(Contents()), selected)
      ensures r.Ok? ==> Progress(old(Contents()), Contents(), selected, data, now) && r.value == Gone(old(jobs), jobs)
      ensures r.Ok? && now < SQL_MAX ==> ActiveRecords(now) == old(ActiveRecords(now)) + |Revived(old(jobs), selected, now)|
      ensures r.Err? ==> Contents() == old(Contents())
    {
      var chosen := SelectLapsed(jobs, artifacts, Full(outbox), now);
      selected := chosen;
      r := ReconcileJobs(chosen, data, now);
    }

    // Linking an artifact.

    /**
     * Links an artifact to a completed job. On success the artifact, the job's record and every live
     * capability the link depends on expire together, later than now, and nothing was lengthened.
     */
    method LinkArtifact(id: nat, a: nat, path: nat, identity: nat, fileError: Option<EventError>, expires: nat, now: nat)
      returns (r: Result<nat, EventError>)
      requires Valid()
      modifies this`jobs, this`artifacts, this`caps
      ensures Valid()
      ensures r.Err? ==> jobs == old(jobs) && artifacts == old(artifacts) && caps == old(caps)
      ensures r.Ok? <==>
                && fileError.None? && |outbox| < 4096
                && id in old(jobs) && Linkable(old(jobs)[id], expires, now)
                && CapabilitiesReady(old(caps), id, a, now)
                && a !in old(artifacts) && (forall b :: b in old(artifacts) ==> old(artifacts)[b].job != Some(id))
      ensures r.Ok? ==>
                && now < r.value && IsEarliest(old(caps), id, a, now, Min(expires, old(jobs)[id].retainUntil), r.value)
                && artifacts == old(artifacts)[a := Artifact(Some(id), path, r.value, identity)]
                && jobs == old(jobs)[id := old(jobs)[id].(retainUntil := r.value)]
                && AlignedAt(old(caps), caps, LinkCapabilities(old(caps), id, a, now), r.value)
    {
      var live := CheckLink(id, a, fileError, expires, now);
      if live.Err? { return Err(live.error); }
      ShortenedAligns(caps, id, a, now, Min(expires, jobs[id].retainUntil), live.value.0);
      caps := Shortened(caps, live.value.1, live.value.0);
      StoreLink(id, a, Artifact(Some(id), path, live.value.0, identity));
      r := Ok(live.value.0);
    }

    /** Whether an artifact can be linked, and if so the common expiry and the capabilities it depends on. */
    method CheckLink(id: nat, a: nat, fileError: Option<EventError>, expires: nat, now: nat)
      returns (r: Result<(nat, set<nat>), EventError>)
      requires Valid()
      ensures r.Ok? <==>
                && fileError.None? && |outbox| < 4096
                && id in jobs && Linkable(jobs[id], expires, now)
                && CapabilitiesReady(caps, id, a, now)
                && a !in artifacts && (forall b :: b in artifacts ==> artifacts[b].job != Some(id))
      ensures r.Ok? ==>
                && now < r.value.0 && IsEarliest(caps, id, a, now, Min(expires, jobs[id].retainUntil), r.value.0)
                && r.value.1 == LinkCapabilities(caps, id, a, now)
      ensures r.Err? ==>
                || fileError == Some(r.error)
                || (r.error == Capacity
                    && (|outbox| >= 4096
                        || |set t | t in caps && (caps[t].subject == OfJob(id) || caps[t].subject == OfArtifact(a))| > 256))
                || (r.error == JobNotFound && id !in jobs)
                || (r.error == IllegalTransition && id in jobs && jobs[id].snapshot.state != Completed)
                || (r.error == JobExpired && id in jobs && (jobs[id].retainUntil <= now || expires <= now))
                || (r.error == CapabilityMissing && !CapabilitiesReady(caps, id, a, now))
                || (r.error == StorageError && (a in artifacts || exists b :: b in artifacts && artifacts[b].job == Some(id)))
    {
      if fileError.Some? { return Err(fileError.value); }
      if |outbox| >= MAX_PENDING_CLEANUPS { return Err(Capacity); }
      if id !in jobs { return Err(JobNotFound); }
      var job := jobs[id];
      if job.snapshot.state != Completed { return Err(IllegalTransition); }
      if job.retainUntil <= now || expires <= now { return Err(JobExpired); }
      r := LiveLinkCapabilities(caps, id, a, now, Min(expires, job.retainUntil));
      if r.Err? { return; }
      // The insertion breaks a unique key and rolls the transaction back.
      if !Unlinked(artifacts, id, a) { return Err(StorageError); }
    }

    /** Stores an artifact with the record of its job, kept no longer than the artifact. */
    method StoreLink(id: nat, a: nat, artifact: Artifact)
      requires Valid() && id in jobs && Unlinked(artifacts, id, a) && artifact.job == Some(id)
      modifies this`jobs, this`artifacts
      ensures Valid()
      ensures artifacts == old(artifacts)[a := artifact]
      ensures jobs == old(jobs)[id := old(jobs)[id].(retainUntil := Min(old(jobs)[id].retainUntil, artifact.expires))]
    {
      LinkKeepsOk(jobs, history, artifacts, id, a, artifact, Min(jobs[id].retainUntil, artifact.expires));
      jobs := jobs[id := jobs[id].(retainUntil := Min(jobs[id].retainUntil, artifact.expires))];
      artifacts := artifacts[a := artifact];
    }
  }

  /** Finds the live capabilities to shorten and the earliest of their expiries and the proposed one. */
  method LiveLinkCapabilities(caps: map<nat, Capability>, id: nat, a: nat, now: nat, proposed: nat)
    returns (r: Result<(nat, set<nat>), EventError>)
    requires now < proposed
    ensures r.Ok? ==>
              && r.value.1 == LinkCapabilities(caps, id, a, now)
              && now < r.value.0 && IsEarliest(caps, id, a, now, proposed, r.value.0)
    ensures r.Ok? <==> CapabilitiesReady(caps, id, a, now)
    ensures r.Err? ==>
              || (r.error == Capacity && |set t | t in caps && (caps[t].subject == OfJob(id) || caps[t].subject == OfArtifact(a))| > 256)
              || r.error == CapabilityMissing
  {
    var rows := SubjectRows(caps, id, a);
    assert rows == set t | t in caps && (caps[t].subject == OfJob(id) || caps[t].subject == OfArtifact(a));
    if |rows| > MAX_LINK_CAPABILITY_ROWS { return Err(Capacity); }
    var chosen := set t | t in rows && IsLinkCapability(caps[t], id, a, now);
    assert chosen == LinkCapabilities(caps, id, a, now);
    var minimum, seen := EarliestExpiry(caps, chosen, id, now, proposed);
    assert forall scope :: scope in seen <==> HasScope(caps, id, a, now, scope);
    ScopesGranted(caps, id, a, now);
    if Status !in seen || EventsScope !in seen || Download !in seen { return Err(CapabilityMissing); }
    r := Ok((minimum, chosen));
  }

  /** Visits the chosen capabilities, keeping the earliest expiry and the scopes they grant. */
  method EarliestExpiry(caps: map<nat, Capability>, chosen: set<nat>, id: nat, now: nat, proposed: nat)
    returns (minimum: nat, seen: set<Scope>)
    requires now < proposed && forall t :: t in chosen ==> t in caps && caps[t].expires > now
    ensures now < minimum <= proposed
    ensures forall t :: t in chosen ==> minimum <= caps[t].expires
    ensures minimum == proposed || exists t :: t in chosen && caps[t].expires == minimum
    ensures forall scope :: scope in seen <==> exists t :: t in chosen && GrantsScope(caps[t], id, scope)
  {
    minimum, seen := proposed, {};
    var left := chosen;
    while left != {}
      invariant left <= chosen
      invariant now < minimum <= proposed
      invariant forall t :: t in chosen - left ==> minimum <= caps[t].expires
      invariant minimum == proposed || exists t :: t in chosen && caps[t].expires == minimum
      invariant forall scope :: scope in seen <==> exists t :: t in chosen - left && GrantsScope(caps[t], id, scope)
      decreases |left|
    {
      var t :| t in left;
      ghost var before := left;
      left := left - {t};
      var granted := set scope | scope in caps[t].scopes && GrantsScope(caps[t], id, scope);
      minimum := Min(minimum, caps[t].expires);
      seen := seen + granted;
      assert chosen - left == (chosen - before) + {t};
    }
  }

  method ReplayJob(job: Job, ghost history: seq<Entry>, last: nat) returns (r: Result<Replay, EventError>)
    requires JobOk(job, history) && last < U64_LIMIT
    ensures r == if last <= |history| then Ok(Answer(history, last)) else Err(FutureRevision)
  {
    RevisionBlobs(|history|, 0);
    var revision := Decode(job.revision);
    if last > revision { return Err(FutureRevision); }
    if revision - last > MAX_RETAINED_SUFFIX + 1 { return Ok(ResyncRequired(revision, job.snapshot)); }
    var replayed := ReadAfter(job.events, history, last);
    CompleteExactlyInWindow(history, last);
    r := Ok(if Complete(replayed, last, revision) then Events(revision, replayed)
            else ResyncRequired(revision, job.snapshot));
  }

  /** Reads the rows after `last`, at most 66 of them; they are the end of the full history. */
  method ReadAfter(events: seq<Row>, ghost history: seq<Entry>, last: nat) returns (replayed: seq<Event>)
    requires |history| < U64_LIMIT && events == Retained(history)
    requires last <= |history| <= last + MAX_RETAINED_SUFFIX + 1
    ensures replayed == EventsAfter(history, FirstShown(history, last))
  {
    SelectedRows(history, last);
    var rows := Limited(Newer(events, EncodeRevision(last)), MAX_RETAINED_SUFFIX + 2);
    replayed := DecodeRows(rows, history, FirstShown(history, last));
  }

  lemma SelectedRows(history: seq<Entry>, last: nat)
    requires |history| < U64_LIMIT && last <= |history| <= last + MAX_RETAINED_SUFFIX + 1
    ensures Limited(Newer(Retained(history), EncodeRevision(last)), MAX_RETAINED_SUFFIX + 2)
            == AllRows(history)[FirstShown(history, last)..]
  {
    var first, rows := Oldest(history), Retained(history);
    NewerIsSuffix(rows, first + 1, last);
    var newer := Newer(rows, EncodeRevision(last));
    if last < first + 1 {
      assert newer == rows;
    } else if last - first >= |rows| {
      assert newer == [] == AllRows(history)[last..];
    } else {
      assert newer == rows[last - first..] == AllRows(history)[last..];
    }
  }

  method DecodeRows(rows: seq<Row>, ghost history: seq<Entry>, ghost from: nat) returns (replayed: seq<Event>)
    requires |history| < U64_LIMIT && from <= |history| && rows == AllRows(history)[from..]
    ensures replayed == EventsAfter(history, from)
  {
    replayed := [];
    for i := 0 to |rows|
      invariant |replayed| == i
      invariant forall k :: 0 <= k < i ==> replayed[k] == EventAt(history, from + k)
    {
      assert rows[i] == RowOf(from + i + 1, history[from + i]);
      RevisionBlobs(from + i + 1, 0);
      replayed := replayed + [Event(Decode(rows[i].revision), rows[i].kind, rows[i].payload)];
    }
  }

  function Limited(rows: seq<Row>, limit: nat): seq<Row> {
    if |rows| <= limit then rows else rows[..limit]
  }

  /** The first revision, counted from zero, a table read after `last` can show. */
  function FirstShown(history: seq<Entry>, last: nat): nat {
    if last < Oldest(history) then Oldest(history) else last
  }

  /** The test that a replayed sequence misses nothing between `last` and the current revision. */
  predicate Complete(replayed: seq<Event>, last: nat, revision: nat)
    requires last <= revision
  {
    && |replayed| == revision - last
    && (forall i :: 0 <= i < |replayed| ==> replayed[i].revision == last + i + 1)
    && (if replayed == [] then last else replayed[|replayed| - 1].revision) == revision
  }

  /** What is read is complete exactly when the client is within the window, and then it is all that is missing. */
  lemma CompleteExactlyInWindow(history: seq<Entry>, last: nat)
    requires last <= |history|
    ensures var replayed := EventsAfter(history, FirstShown(history, last));
            && (Complete(replayed, last, |history|) <==> |history| - last <= Window(history))
            && (Complete(replayed, last, |history|) ==> replayed == EventsAfter(history, last))
  {
    var from := FirstShown(history, last);
    var replayed := EventsAfter(history, from);
    assert forall k :: 0 <= k < |replayed| ==> replayed[k] == EventAt(history, from + k);
    assert from == last <==> |history| - last <= Window(history);
  }
}
