/** A run of the event store after which more records are active than a registration would allow. */
module EventWitnesses {
  import opened EventLog
  import opened EventTables
  import opened EventReconciliation
  import opened EventStores

  /** Job 0 has lapsed by the hundredth second, with its retention; n - 1 other jobs are alive then. */
  ghost predicate FirstHasLapsed(jobs: map<nat, Job>, history: map<nat, seq<Entry>>, n: nat) {
    && (forall k :: k in jobs <==> 0 <= k < n)
    && 0 in jobs && jobs[0].lease == 61 && jobs[0].retainUntil == 2 && !jobs[0].snapshot.state.Terminal()
    && 0 in history && |history[0]| == 1
    && (forall k :: 1 <= k < n ==> jobs[k].lease == 160)
    && |LiveJobs(jobs, 100)| == n - 1
  }

  lemma OneMoreLives(jobs: map<nat, Job>, history: map<nat, seq<Entry>>, n: nat, job: Job, entries: seq<Entry>)
    requires n > 0 && FirstHasLapsed(jobs, history, n) && job.lease == 160
    ensures FirstHasLapsed(jobs[n := job], history[n := entries], n + 1)
  {
    assert LiveJobs(jobs[n := job], 100) == LiveJobs(jobs, 100) + {n};
  }

  /** The job that is going to lapse. */
  method RegisterFirst(store: EventStore)
    requires store.Valid() && store.jobs == map[] && store.history == map[] && store.artifacts == map[]
    modifies store
    ensures store.Valid() && store.artifacts == map[] && FirstHasLapsed(store.jobs, store.history, 1)
  {
    var r := store.RegisterState(0, Active("running"), 0, 2, 1);
    assert store.jobs[0].snapshot.state == Active("running");
    assert LiveJobs(store.jobs, 100) == {};
  }

  /** One more job that is alive at the hundredth second. */
  method RegisterNext(store: EventStore, n: nat)
    requires store.Valid() && store.artifacts == map[] && FirstHasLapsed(store.jobs, store.history, n)
    requires 0 < n <= MAX_ACTIVE_JOBS_AND_CLEANUPS
    modifies store
    ensures store.Valid() && store.artifacts == map[] && FirstHasLapsed(store.jobs, store.history, n + 1)
  {
    ghost var jobs, history := store.jobs, store.history;
    CountedAre(jobs, store.artifacts, 100);
    var r := store.RegisterState(n, Active("running"), 0, 200, 100);
    OneMoreLives(jobs, history, n, store.jobs[n], store.history[n]);
  }

  /**
   * The bound of 128 active records is imposed at registration only: a worker that has lapsed, 128
   * registrations after it, and one reconciliation leave 129.
   */
  method ReconciliationPassesTheBound() returns (store: EventStore)
    ensures store.Valid() && CountedRecords(store.jobs, store.artifacts, 100) == 129
  {
    store := new EventStore();
    RegisterFirst(store);
    for n := 1 to MAX_ACTIVE_JOBS_AND_CLEANUPS + 1
      invariant store.Valid() && store.artifacts == map[] && FirstHasLapsed(store.jobs, store.history, n)
      invariant fresh(store)
    {
      RegisterNext(store, n);
    }
    FailFirst(store);
  }

  /** The reconciliation of the lapsed job. */
  method FailFirst(store: EventStore)
    requires store.Valid() && store.artifacts == map[]
    requires FirstHasLapsed(store.jobs, store.history, MAX_ACTIVE_JOBS_AND_CLEANUPS + 1)
    modifies store
    ensures store.Valid() && CountedRecords(store.jobs, store.artifacts, 100) == 129
  {
    ghost var jobs, full := store.jobs, Full(store.outbox);
    assert LiveArtifacts(store.artifacts, 100) == {};
    var r;
    ghost var selected;
    r, selected := store.ReconcileExpired(0, 100);
    OnlyFirstLapsed(jobs, full, selected);
    CountedAre(store.jobs, store.artifacts, 100);
  }

  lemma AllDiffer(jobs: map<nat, Job>, selected: seq<nat>)
    requires forall i, j :: 0 <= i < j < |selected| ==> OverFirst(jobs, selected[i], selected[j])
    ensures |selected| > 1 ==> selected[0] != selected[1]
  {
  }

  /** With one lapsed job, and no artifacts, the reconciliation looks at that job. */
  lemma OnlyFirstLapsed(jobs: map<nat, Job>, full: bool, selected: seq<nat>)
    requires 0 in jobs && jobs[0].lease == 61 && jobs[0].retainUntil == 2 && !jobs[0].snapshot.state.Terminal()
    requires forall k :: k in jobs && k != 0 ==> jobs[k].lease == 160
    requires IsSelection(jobs, map[], full, 100, selected)
    ensures selected == [0] && Revived(jobs, selected, 100) == {0}
  {
    assert IsOver(jobs, map[], full, 100, 0);
    AllDiffer(jobs, selected);
    forall i | 0 <= i < |selected| ensures selected[i] == 0 {
      assert selected[i] in selected && IsOver(jobs, map[], full, 100, selected[i]);
    }
  }
}
