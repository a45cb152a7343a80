/**
 * What the reconciliation of lapsed jobs does to the tables, one job at a time and over a whole batch.
 */
module EventReconciliation {
  import opened Prelude
  import opened EventLog
  import opened EventTables

  /** The tables at one moment, with the full history of every job. */
  datatype Tables = Tables(
    jobs: map<nat, Job>,
    history: map<nat, seq<Entry>>,
    artifacts: map<nat, Artifact>,
    caps: map<nat, Capability>,
    outbox: map<(Option<nat>, nat), Intent>)

  /** The condition of the selection. */
  predicate Lapsed(job: Job, now: nat) {
    (0 < job.lease <= now) || (job.lease == 0 && job.retainUntil <= now)
  }

  /** A stored job is selected exactly when it has expired. */
  lemma LapsedIsExpired(job: Job, history: seq<Entry>, now: nat)
    requires JobOk(job, history)
    ensures Lapsed(job, now) <==> IsExpired(job, now)
  {
  }

  // The selection.

  const MAX_EXPIRY_BATCH: nat := 32

  /** A lapsed job the reconciliation may look at: while the outbox is full, no record with an artifact. */
  predicate Eligible(jobs: map<nat, Job>, artifacts: map<nat, Artifact>, full: bool, now: nat, id: nat) {
    id in jobs && Lapsed(jobs[id], now) && (full && HasArtifact(artifacts, id) ==> jobs[id].lease > 0)
  }

  /** When the job lapsed: its worker lease while it is active, its retention afterwards. */
  function LapsedAt(job: Job): nat {
    if job.lease > 0 then job.lease else job.retainUntil
  }

  predicate Sooner(jobs: map<nat, Job>, a: nat, b: nat) {
    && a in jobs && b in jobs
    && (LapsedAt(jobs[a]) < LapsedAt(jobs[b]) || (LapsedAt(jobs[a]) == LapsedAt(jobs[b]) && a < b))
  }

  /** The eligible jobs that lapsed first, in that order; one is left out only if 32 others lapsed before it. */
  ghost predicate IsSelection(jobs: map<nat, Job>, artifacts: map<nat, Artifact>, full: bool, now: nat, selected: seq<nat>) {
    && |selected| <= 32
    && (forall id :: id in selected ==> IsOver(jobs, artifacts, full, now, id))
    && (forall i, j :: 0 <= i < j < |selected| ==> OverFirst(jobs, selected[i], selected[j]))
    && (forall id :: IsOver(jobs, artifacts, full, now, id) && id !in selected ==>
          |selected| == 32 && forall k :: k in selected ==> OverFirst(jobs, k, id))
  }

  /** The worker lease of the job has lapsed, or it has none and its record, which may go, has. */
  predicate IsOver(jobs: map<nat, Job>, artifacts: map<nat, Artifact>, full: bool, now: nat, id: nat) {
    id in jobs &&
    if jobs[id].lease > 0 then jobs[id].lease <= now
    else jobs[id].retainUntil <= now && !(full && exists a :: a in artifacts && artifacts[a].job == Some(id))
  }

  /** Its lease, or without one its record, ended earlier than that of the other, or at once with a smaller id. */
  predicate OverFirst(jobs: map<nat, Job>, a: nat, b: nat) {
    && a in jobs && b in jobs
    && var x := if jobs[a].lease == 0 then jobs[a].retainUntil else jobs[a].lease;
       var y := if jobs[b].lease == 0 then jobs[b].retainUntil else jobs[b].lease;
       x < y || (x == y && a < b)
  }

  /** The one among some jobs that lapsed first. */
  method Soonest(jobs: map<nat, Job>, ids: set<nat>) returns (first: nat)
    requires ids != {} && forall id :: id in ids ==> id in jobs
    ensures first in ids && forall id :: id in ids && id != first ==> Sooner(jobs, first, id)
  {
    first :| first in ids;
    var left := ids - {first};
    ghost var seen := {first};
    while left != {}
      invariant first in seen && seen + left == ids && seen !! left
      invariant forall id :: id in seen && id != first ==> Sooner(jobs, first, id)
      decreases |left|
    {
      var next :| next in left;
      if Sooner(jobs, next, first) {
        first := next;
      }
      left, seen := left - {next}, seen + {next};
    }
  }

  lemma SelectionIs(jobs: map<nat, Job>, artifacts: map<nat, Artifact>, full: bool, now: nat, selected: seq<nat>)
    requires |selected| <= 32
    requires forall id :: id in selected ==> Eligible(jobs, artifacts, full, now, id)
    requires forall i, j :: 0 <= i < j < |selected| ==> Sooner(jobs, selected[i], selected[j])
    requires forall id :: Eligible(jobs, artifacts, full, now, id) && id !in selected ==>
               |selected| == 32 && forall k :: k in selected ==> Sooner(jobs, k, id)
    ensures IsSelection(jobs, artifacts, full, now, selected)
  {
    forall id ensures Eligible(jobs, artifacts, full, now, id) <==> IsOver(jobs, artifacts, full, now, id) {
    }
    forall a, b ensures Sooner(jobs, a, b) <==> OverFirst(jobs, a, b) {
    }
  }

  /** The query of the reconciliation. */
  method SelectLapsed(jobs: map<nat, Job>, artifacts: map<nat, Artifact>, full: bool, now: nat) returns (selected: seq<nat>)
    ensures IsSelection(jobs, artifacts, full, now, selected)
    ensures Selection(jobs, selected, now)
  {
    var due := set id | id in jobs && Eligible(jobs, artifacts, full, now, id);
    var left := due;
    selected := [];
    while left != {} && |selected| < MAX_EXPIRY_BATCH
      invariant left <= due && |selected| <= MAX_EXPIRY_BATCH
      invariant forall id :: id in selected <==> id in due - left
      invariant forall i, j :: 0 <= i < j < |selected| ==> Sooner(jobs, selected[i], selected[j])
      invariant forall k, id :: k in selected && id in left ==> Sooner(jobs, k, id)
      decreases |left|
    {
      var next := Soonest(jobs, left);
      selected := selected + [next];
      left := left - {next};
    }
    SelectionIs(jobs, artifacts, full, now, selected);
  }

  predicate Full(outbox: map<(Option<nat>, nat), Intent>) {
    |outbox| >= MAX_PENDING_CLEANUPS
  }

  /** An active job can fail only while it has a revision to spare. */
  ghost predicate Failable(t: Tables, id: nat) {
    id in t.jobs && id in t.history && (!t.jobs[id].snapshot.state.Terminal() ==> |t.history[id]| + 1 < U64_LIMIT)
  }

  // One job.

  /** The failed job and its history are all that changed. */
  ghost predicate FailedOne(before: Tables, after: Tables, id: nat, data: nat, now: nat) {
    && id in before.jobs && id in before.history && id in after.jobs
    && after == before.(jobs := before.jobs[id := after.jobs[id]],
                        history := before.history[id := before.history[id] + [Entry("job.failed", data, Snapshot(Failed, data))]])
    && after.jobs[id].lease == 0 && after.jobs[id].retainUntil == RecordEnd(before.jobs[id].retention, now)
    && after.jobs[id].retention == before.jobs[id].retention
  }

  /** The artifact is the one linked to the job, or there is none. */
  ghost predicate IsLinked(artifacts: map<nat, Artifact>, id: nat, artifact: Option<nat>) {
    forall a :: a in artifacts && artifacts[a].job == Some(id) <==> artifact == Some(a)
  }

  /** The capabilities once those of the job and of its artifact have been revoked. */
  function RevokedWith(caps: map<nat, Capability>, id: nat, artifact: Option<nat>): map<nat, Capability> {
    var revoked := RevokedFor(caps, OfJob(id));
    if artifact.None? then revoked else RevokedFor(revoked, OfArtifact(artifact.value))
  }

  /** The tables without the record of the job, its artifact and their capabilities. */
  ghost function WithoutJob(t: Tables, id: nat, artifact: Option<nat>, now: nat): Tables
    requires artifact.Some? ==> artifact.value in t.artifacts
  {
    Tables(t.jobs - {id}, t.history - {id},
           if artifact.None? then t.artifacts else t.artifacts - {artifact.value},
           RevokedWith(t.caps, id, artifact),
           if artifact.None? then t.outbox
           else WithIntent(t.outbox, (Some(id), artifact.value), t.artifacts[artifact.value], now))
  }

  /** The record of a job goes, unless its artifact finds no room in the outbox. */
  ghost function RetiredOne(t: Tables, id: nat, artifact: Option<nat>, now: nat): Tables
    requires artifact.Some? ==> artifact.value in t.artifacts
  {
    if artifact.Some? && Full(t.outbox) then t else WithoutJob(t, id, artifact, now)
  }

  /** Dropping a job with its artifact keeps the tables in order. */
  lemma RetireKeepsOk(jobs: map<nat, Job>, history: map<nat, seq<Entry>>, artifacts: map<nat, Artifact>,
                      id: nat, artifact: Option<nat>)
    requires TablesOk(jobs, history, artifacts) && IsLinked(artifacts, id, artifact)
    ensures TablesOk(jobs - {id}, history - {id}, if artifact.None? then artifacts else artifacts - {artifact.value})
  {
  }

  /** What happened to a lapsed job. */
  ghost predicate OneReconciled(before: Tables, after: Tables, id: nat, artifact: Option<nat>, data: nat, now: nat) {
    id in before.jobs &&
    if before.jobs[id].snapshot.state.Terminal() then
      IsLinked(before.artifacts, id, artifact) && after == RetiredOne(before, id, artifact, now)
    else artifact == None && FailedOne(before, after, id, data, now)
  }

  // A batch.

  predicate HasArtifact(artifacts: map<nat, Artifact>, id: nat) {
    exists a :: a in artifacts && artifacts[a].job == Some(id)
  }

  /** A lapsed active job has failed; a lapsed record is gone, or stays because the outbox has no room for its artifact. */
  ghost predicate Reconciled(before: Job, was: seq<Entry>, after: Option<Job>, becomes: Option<seq<Entry>>,
                             linked: bool, data: nat, now: nat, full: bool)
  {
    if before.snapshot.state.Terminal() then
      (after == None && becomes == None) || (linked && full && after == Some(before) && becomes == Some(was))
    else
      && becomes == Some(was + [Entry("job.failed", data, Snapshot(Failed, data))])
      && after.Some? && after.value.lease == 0 && after.value.retainUntil == RecordEnd(before.retention, now)
      && after.value.retention == before.retention
  }

  /** Job `id` once the jobs in `done` have been reconciled, the others being as they were. */
  ghost predicate JobAfter(start: Tables, t: Tables, done: seq<nat>, data: nat, now: nat, id: nat) {
    if id in done then
      && id in start.jobs && id in start.history
      && Reconciled(start.jobs[id], start.history[id], Lookup(t.jobs, id), Lookup(t.history, id),
                    (exists a :: a in start.artifacts && start.artifacts[a].job == Some(id)), data, now, |t.outbox| >= 4096)
    else
      Lookup(t.jobs, id) == Lookup(start.jobs, id) && Lookup(t.history, id) == Lookup(start.history, id)
  }

  ghost predicate Batch(start: Tables, t: Tables, done: seq<nat>, data: nat, now: nat) {
    forall id: nat :: JobAfter(start, t, done, data, now, id)
  }

  predicate JobGone(start: Tables, t: Tables, job: Option<nat>) {
    job.Some? && job.value in start.jobs && job.value !in t.jobs
  }

  predicate SubjectGone(start: Tables, t: Tables, subject: Subject) {
    match subject
    case OfJob(job) => JobGone(start, t, Some(job))
    case OfArtifact(a) => a in start.artifacts && JobGone(start, t, start.artifacts[a].job)
  }

  /** The intent for an artifact: the one that was there, or one that is due at once and names its file. */
  ghost function IntentFor(start: Tables, a: nat, now: nat): Intent
    requires a in start.artifacts
  {
    var key := (start.artifacts[a].job, a);
    if key in start.outbox then start.outbox[key] else Intent(start.artifacts[a].path, start.artifacts[a].identity, now)
  }

  /** An artifact goes with its job, and never without its intent. */
  ghost predicate ArtifactsFollow(start: Tables, t: Tables, now: nat) {
    forall a: nat ::
      if a in start.artifacts && JobGone(start, t, start.artifacts[a].job)
      then a !in t.artifacts && Lookup(t.outbox, (start.artifacts[a].job, a)) == Some(IntentFor(start, a, now))
      else Lookup(t.artifacts, a) == Lookup(start.artifacts, a)
  }

  /** A capability is revoked when its job or its artifact has gone, and is as it was otherwise. */
  ghost predicate CapabilitiesFollow(start: Tables, t: Tables) {
    && t.caps.Keys == start.caps.Keys
    && forall c :: c in start.caps ==>
         t.caps[c] == if SubjectGone(start, t, start.caps[c].subject) then start.caps[c].(expires := 0) else start.caps[c]
  }

  /** No intent is lost, the outbox grows only within its limit, and only by the artifacts of jobs that have gone. */
  ghost predicate OutboxFollows(start: Tables, t: Tables) {
    && (forall key :: key in start.outbox ==> key in t.outbox && t.outbox[key] == start.outbox[key])
    && (t.outbox == start.outbox || |t.outbox| <= 4096)
    && (forall key :: key in t.outbox && key !in start.outbox ==>
          key.1 in start.artifacts && start.artifacts[key.1].job == key.0 && JobGone(start, t, key.0))
  }

  ghost predicate Follows(start: Tables, t: Tables, now: nat) {
    ArtifactsFollow(start, t, now) && CapabilitiesFollow(start, t) && OutboxFollows(start, t)
  }

  /** The tables in the middle of a batch that started from `start`. */
  ghost predicate Progress(start: Tables, t: Tables, done: seq<nat>, data: nat, now: nat) {
    Batch(start, t, done, data, now) && Follows(start, t, now)
  }

  lemma NoProgressYet(t: Tables, data: nat, now: nat)
    ensures Progress(t, t, [], data, now)
  {
  }

  /** A job the batch has not reached is as it was. */
  lemma NotYetReached(start: Tables, t: Tables, done: seq<nat>, data: nat, now: nat, id: nat)
    requires Batch(start, t, done, data, now) && id !in done && id in start.jobs && id in start.history
    ensures id in t.jobs && t.jobs[id] == start.jobs[id] && id in t.history && t.history[id] == start.history[id]
  {
    assert JobAfter(start, t, done, data, now, id);
  }

  /** The artifact of a job that is still there is still there. */
  lemma ArtifactStillLinked(start: Tables, before: Tables, id: nat, a: nat, now: nat)
    requires ArtifactsFollow(start, before, now) && id in before.jobs
    ensures a in start.artifacts && start.artifacts[a].job == Some(id)
            <==> a in before.artifacts && before.artifacts[a].job == Some(id)
  {
    assert Lookup(before.artifacts, a).Some? ==> Lookup(before.artifacts, a) == Lookup(start.artifacts, a);
  }

  /** One more job: the batch goes on. */
  lemma BatchStep(start: Tables, before: Tables, after: Tables, done: seq<nat>, id: nat, artifact: Option<nat>,
                  data: nat, now: nat)
    requires Batch(start, before, done, data, now) && ArtifactsFollow(start, before, now)
    requires id !in done && id in start.jobs && id in start.history
    requires OneReconciled(before, after, id, artifact, data, now)
    ensures Batch(start, after, done + [id], data, now)
  {
    NotYetReached(start, before, done, data, now, id);
    if artifact.Some? {
      ArtifactStillLinked(start, before, id, artifact.value, now);
    }
    forall k: nat ensures JobAfter(start, after, done + [id], data, now, k) {
      assert JobAfter(start, before, done, data, now, k);
      if k == id {
        ThisJob(start, before, after, id, artifact, data, now);
        assert id in done + [id];
      } else {
        OtherJob(before, after, id, artifact, data, now, k);
        StaysReconciled(start, before, after, done, id, data, now, k);
      }
    }
  }

  lemma StaysReconciled(start: Tables, before: Tables, after: Tables, done: seq<nat>, id: nat, data: nat, now: nat, k: nat)
    requires JobAfter(start, before, done, data, now, k) && k != id
    requires Lookup(after.jobs, k) == Lookup(before.jobs, k) && Lookup(after.history, k) == Lookup(before.history, k)
    requires |before.outbox| >= 4096 ==> after.outbox == before.outbox
    ensures JobAfter(start, after, done + [id], data, now, k)
  {
    assert k in done + [id] <==> k in done;
  }

  lemma ThisJob(start: Tables, before: Tables, after: Tables, id: nat, artifact: Option<nat>, data: nat, now: nat)
    requires id in start.jobs && id in start.history && OneReconciled(before, after, id, artifact, data, now)
    requires before.jobs[id] == start.jobs[id] && id in before.history && before.history[id] == start.history[id]
    requires artifact.Some? ==> artifact.value in start.artifacts && start.artifacts[artifact.value].job == Some(id)
    ensures Reconciled(start.jobs[id], start.history[id], Lookup(after.jobs, id), Lookup(after.history, id),
                       exists a :: a in start.artifacts && start.artifacts[a].job == Some(id), data, now, |after.outbox| >= 4096)
  {
  }

  lemma OtherJob(before: Tables, after: Tables, id: nat, artifact: Option<nat>, data: nat, now: nat, k: nat)
    requires OneReconciled(before, after, id, artifact, data, now) && k != id
    ensures Lookup(after.jobs, k) == Lookup(before.jobs, k) && Lookup(after.history, k) == Lookup(before.history, k)
    ensures |before.outbox| >= 4096 ==> after.outbox == before.outbox
  {
    if artifact.Some? {
      assert artifact.value in before.artifacts;
    }
    if after.jobs != before.jobs && before.jobs[id].snapshot.state.Terminal() {
      assert after.jobs == before.jobs - {id} && after.history == before.history - {id};
    }
  }

  /** One more job: artifacts, capabilities and outbox still follow the jobs. */
  lemma FollowStep(start: Tables, before: Tables, after: Tables, id: nat, artifact: Option<nat>, data: nat, now: nat)
    requires Follows(start, before, now) && id in start.jobs
    requires OneReconciled(before, after, id, artifact, data, now)
    ensures Follows(start, after, now)
  {
    if id in after.jobs {
      SameFollow(start, before, after, now);
    } else {
      GoneFollow(start, before, id, artifact, now);
    }
  }

  lemma SameFollow(start: Tables, before: Tables, after: Tables, now: nat)
    requires Follows(start, before, now) && after.jobs.Keys == before.jobs.Keys
    requires after.artifacts == before.artifacts && after.caps == before.caps && after.outbox == before.outbox
    ensures Follows(start, after, now)
  {
  }

  lemma GoneFollow(start: Tables, before: Tables, id: nat, artifact: Option<nat>, now: nat)
    requires Follows(start, before, now) && id in start.jobs && id in before.jobs
    requires IsLinked(before.artifacts, id, artifact) && !(artifact.Some? && Full(before.outbox))
    ensures Follows(start, WithoutJob(before, id, artifact, now), now)
  {
    ArtifactsStep(start, before, id, artifact, now);
    CapabilitiesStep(start, before, id, artifact, now);
    OutboxStep(start, before, id, artifact, now);
  }

  /** With job `id` gone too. */
  lemma GoneToo(start: Tables, before: Tables, after: Tables, id: nat, job: Option<nat>)
    requires id in start.jobs && after.jobs == before.jobs - {id}
    ensures JobGone(start, after, job) <==> JobGone(start, before, job) || job == Some(id)
  {
  }

  lemma ArtifactsStep(start: Tables, before: Tables, id: nat, artifact: Option<nat>, now: nat)
    requires ArtifactsFollow(start, before, now) && OutboxFollows(start, before) && id in start.jobs && id in before.jobs
    requires IsLinked(before.artifacts, id, artifact)
    ensures ArtifactsFollow(start, WithoutJob(before, id, artifact, now), now)
  {
    var after := WithoutJob(before, id, artifact, now);
    forall a: nat
      ensures if a in start.artifacts && JobGone(start, after, start.artifacts[a].job)
              then a !in after.artifacts && Lookup(after.outbox, (start.artifacts[a].job, a)) == Some(IntentFor(start, a, now))
              else Lookup(after.artifacts, a) == Lookup(start.artifacts, a)
    {
      ArtifactStillLinked(start, before, id, a, now);
      if a in start.artifacts {
        GoneToo(start, before, after, id, start.artifacts[a].job);
      }
    }
  }

  lemma CapabilitiesStep(start: Tables, before: Tables, id: nat, artifact: Option<nat>, now: nat)
    requires ArtifactsFollow(start, before, now) && CapabilitiesFollow(start, before)
    requires id in start.jobs && id in before.jobs && IsLinked(before.artifacts, id, artifact)
    ensures CapabilitiesFollow(start, WithoutJob(before, id, artifact, now))
  {
    var after := WithoutJob(before, id, artifact, now);
    forall c | c in start.caps
      ensures after.caps[c]
              == if SubjectGone(start, after, start.caps[c].subject) then start.caps[c].(expires := 0) else start.caps[c]
    {
      SubjectGoneToo(start, before, after, id, artifact, start.caps[c].subject, now);
    }
  }

  lemma SubjectGoneToo(start: Tables, before: Tables, after: Tables, id: nat, artifact: Option<nat>, subject: Subject, now: nat)
    requires ArtifactsFollow(start, before, now) && id in start.jobs && id in before.jobs
    requires IsLinked(before.artifacts, id, artifact) && after.jobs == before.jobs - {id}
    ensures SubjectGone(start, after, subject)
            <==> SubjectGone(start, before, subject) || subject == OfJob(id)
                 || (artifact.Some? && subject == OfArtifact(artifact.value))
  {
    match subject
    case OfJob(job) => GoneToo(start, before, after, id, Some(job));
    case OfArtifact(a) =>
      ArtifactStillLinked(start, before, id, a, now);
      if a in start.artifacts {
        GoneToo(start, before, after, id, start.artifacts[a].job);
      }
  }

  lemma OutboxStep(start: Tables, before: Tables, id: nat, artifact: Option<nat>, now: nat)
    requires OutboxFollows(start, before) && ArtifactsFollow(start, before, now) && IsLinked(before.artifacts, id, artifact)
    requires id in start.jobs && id in before.jobs && !(artifact.Some? && Full(before.outbox))
    ensures OutboxFollows(start, WithoutJob(before, id, artifact, now))
  {
    if artifact.Some? {
      ArtifactStillLinked(start, before, id, artifact.value, now);
      IntentCount(before.outbox, (Some(id), artifact.value), before.artifacts[artifact.value], now);
    }
    var after := WithoutJob(before, id, artifact, now);
    forall key | key in after.outbox && key !in start.outbox
      ensures key.1 in start.artifacts && start.artifacts[key.1].job == key.0 && JobGone(start, after, key.0)
    {
      GoneToo(start, before, after, id, key.0);
    }
  }

  lemma IntentCount(outbox: map<(Option<nat>, nat), Intent>, key: (Option<nat>, nat), artifact: Artifact, now: nat)
    ensures |WithIntent(outbox, key, artifact, now)| <= |outbox| + 1
  {
    if key !in outbox {
      assert WithIntent(outbox, key, artifact, now).Keys == outbox.Keys + {key};
    }
  }

  /** How many jobs have gone. */
  function Gone(start: map<nat, Job>, jobs: map<nat, Job>): nat {
    |start.Keys - jobs.Keys|
  }

  lemma GoneStep(start: map<nat, Job>, before: map<nat, Job>, after: map<nat, Job>, id: nat, gone: bool)
    requires before.Keys <= start.Keys && id in before && after.Keys == before.Keys - if gone then {id} else {}
    ensures Gone(start, after) == Gone(start, before) + if gone then 1 else 0
  {
    if gone {
      assert start.Keys - after.Keys == (start.Keys - before.Keys) + {id};
    } else {
      assert after.Keys == before.Keys;
    }
  }

  /** Some lapsed jobs, each once. */
  predicate Selection(jobs: map<nat, Job>, selected: seq<nat>, now: nat) {
    && (forall id :: id in selected ==> id in jobs && Lapsed(jobs[id], now))
    && (forall i, j :: 0 <= i < j < |selected| ==> selected[i] != selected[j])
  }

  ghost predicate AllFailable(t: Tables, ids: seq<nat>) {
    forall id :: id in ids ==> Failable(t, id)
  }

  lemma SelectedNext(jobs: map<nat, Job>, selected: seq<nat>, now: nat, i: nat)
    requires Selection(jobs, selected, now) && i < |selected|
    ensures selected[i] in jobs && Lapsed(jobs[selected[i]], now) && selected[i] !in selected[..i]
    ensures selected[..i + 1] == selected[..i] + [selected[i]]
  {
    assert selected[i] in selected;
  }

  lemma FailableNext(t: Tables, selected: seq<nat>, i: nat)
    requires i < |selected| && AllFailable(t, selected[..i])
    ensures AllFailable(t, selected[..i] + [selected[i]]) <==> Failable(t, selected[i])
    ensures AllFailable(t, selected) ==> Failable(t, selected[i])
  {
    assert selected[i] in selected;
    var next := selected[..i] + [selected[i]];
    assert next[i] == selected[i] && next[i] in next;
    assert forall id :: id in next <==> id in selected[..i] || id == selected[i];
  }

  lemma TakeAll(s: seq<nat>)
    ensures s[..|s|] == s
  {
  }

  // The capacity.

  /** The active jobs among some that no longer counted: their lease had lapsed and their retention too. */
  function Revived(jobs: map<nat, Job>, selected: seq<nat>, now: nat): set<nat> {
    set id | id in selected && id in jobs && !jobs[id].snapshot.state.Terminal() && jobs[id].retainUntil <= now
  }

  /** Which jobs count after a batch: those that did, and the failed ones whose record it keeps from now on. */
  lemma LiveAfterBatch(start: Tables, t: Tables, selected: seq<nat>, data: nat, now: nat, id: nat)
    requires TablesOk(start.jobs, start.history, start.artifacts) && Selection(start.jobs, selected, now)
    requires Batch(start, t, selected, data, now) && now < SQL_MAX
    ensures id in LiveJobs(t.jobs, now) <==> id in LiveJobs(start.jobs, now) || id in Revived(start.jobs, selected, now)
    ensures id in Revived(start.jobs, selected, now) ==> id !in LiveJobs(start.jobs, now)
  {
    assert JobAfter(start, t, selected, data, now, id);
    if id in start.jobs {
      assert JobOk(start.jobs[id], start.history[id]);
    }
  }

  /**
   * The number of active records a batch leaves: it grows by exactly the active jobs in the batch whose lease
   * and retention had both lapsed, whatever the capacity; records that go had stopped counting before.
   */
  lemma BatchRaisesRecords(start: Tables, t: Tables, selected: seq<nat>, data: nat, now: nat)
    requires TablesOk(start.jobs, start.history, start.artifacts) && Selection(start.jobs, selected, now)
    requires Progress(start, t, selected, data, now) && now < SQL_MAX
    ensures |LiveJobs(t.jobs, now)| == |LiveJobs(start.jobs, now)| + |Revived(start.jobs, selected, now)|
    ensures LiveArtifacts(t.artifacts, now) == LiveArtifacts(start.artifacts, now)
  {
    forall id: nat
      ensures id in LiveJobs(t.jobs, now) <==> id in LiveJobs(start.jobs, now) || id in Revived(start.jobs, selected, now)
      ensures id in Revived(start.jobs, selected, now) ==> id !in LiveJobs(start.jobs, now)
    {
      LiveAfterBatch(start, t, selected, data, now, id);
    }
    DisjointCount(LiveJobs(start.jobs, now), Revived(start.jobs, selected, now), LiveJobs(t.jobs, now));
    SameArtifactsLive(start, t, now);
  }

  lemma DisjointCount(a: set<nat>, b: set<nat>, all: set<nat>)
    requires forall id: nat :: id in all <==> id in a || id in b
    requires forall id: nat :: id in b ==> id !in a
    ensures |all| == |a| + |b|
  {
    assert all == a + b;
  }

  /** An artifact of no job is never touched by a batch over jobs. */
  lemma SameArtifactsLive(start: Tables, t: Tables, now: nat)
    requires ArtifactsFollow(start, t, now)
    ensures LiveArtifacts(t.artifacts, now) == LiveArtifacts(start.artifacts, now)
  {
    forall a: nat ensures a in LiveArtifacts(t.artifacts, now) <==> a in LiveArtifacts(start.artifacts, now) {
      assert Lookup(t.artifacts, a) == Lookup(start.artifacts, a) || a !in t.artifacts;
    }
  }
}
