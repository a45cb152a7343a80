/**
 * The removal of an upload's file through its cleanup row: each attempt looks at one page of the directory from
 * the cursor the row has stored.
 */
module CleanupScan {
  import opened Prelude
  import opened LedgerTables
  import opened LedgerTransactions
  import I = IdentityScan

  /** What the attempt tells the transaction that records it; a scan that finds no file is an error. */
  function DeletionOf(outcome: I.Outcome): Deletion {
    match outcome
    case Removed(_) => Deletion.Removed
    case Continue(next) => Deletion.Continue(next)
    case NotFound => Error
    case Failed => Error
  }

  /** One attempt: a directory as it was seen, and the clock when its outcome was recorded. */
  datatype Attempted = Attempted(sight: I.Sight, now: nat)

  /** One attempt on the cleanup row of session s, whose file is known by its identity. */
  function AttemptOn(l: Ledger, s: nat, preferred: I.Name, identity: nat, attempt: Attempted): Ledger {
    if s !in l.cleanups then l
    else
      var sight := attempt.sight;
      var outcome := I.Attempt(sight.dir, sight.entries, preferred, identity, l.cleanups[s].cursor,
                               sight.linkedElsewhere, sight.scanFails);
      RecordCleanup(l, s, DeletionOf(outcome), attempt.now)
  }

  function AttemptsOn(l: Ledger, s: nat, preferred: I.Name, identity: nat, attempts: seq<Attempted>): Ledger {
    if attempts == [] then l
    else AttemptOn(AttemptsOn(l, s, preferred, identity, attempts[..|attempts| - 1]), s, preferred, identity,
                   attempts[|attempts| - 1])
  }

  /** Every attempt finds the file under one name and no other, and its scan does not fail. */
  ghost predicate FileStays(attempts: seq<Attempted>, name: I.Name, identity: nat, names: set<I.Name>) {
    forall i :: 0 <= i < |attempts| ==>
      && I.HasStableFile(attempts[i].sight, name, identity) && !attempts[i].sight.scanFails
      && forall other :: other in attempts[i].sight.entries ==> other in names
  }

  /** The row has gone with its file, or the scan has put 64 names behind it with every attempt. */
  ghost predicate Advanced(l: Ledger, next: Ledger, s: nat, name: I.Name, names: set<I.Name>, attempts: nat) {
    if s !in next.cleanups then s in next.removed
    else
      && next.removed == l.removed
      && I.After(name, next.cleanups[s].cursor)
      && 64 * attempts <= |I.Behind(names, next.cleanups[s].cursor)|
  }

  lemma OneMoreAttempt(l: Ledger, middle: Ledger, s: nat, preferred: I.Name, identity: nat, attempt: Attempted,
                       name: I.Name, names: set<I.Name>, attempts: nat)
    requires Advanced(l, middle, s, name, names, attempts)
    requires I.HasStableFile(attempt.sight, name, identity) && !attempt.sight.scanFails
    requires forall other :: other in attempt.sight.entries ==> other in names
    ensures Advanced(l, AttemptOn(middle, s, preferred, identity, attempt), s, name, names, attempts + 1)
  {
    if s in middle.cleanups {
      I.OneAttempt(attempt.sight, preferred, identity, middle.cleanups[s].cursor, name, names);
    }
  }

  lemma {:induction false} ScanAdvances(l: Ledger, s: nat, preferred: I.Name, identity: nat, attempts: seq<Attempted>,
                                        name: I.Name, names: set<I.Name>)
    requires s in l.cleanups && l.cleanups[s].cursor.None? && FileStays(attempts, name, identity, names)
    ensures Advanced(l, AttemptsOn(l, s, preferred, identity, attempts), s, name, names, |attempts|)
    decreases |attempts|
  {
    if attempts != [] {
      var n := |attempts| - 1;
      ScanAdvances(l, s, preferred, identity, attempts[..n], name, names);
      var middle := AttemptsOn(l, s, preferred, identity, attempts[..n]);
      OneMoreAttempt(l, middle, s, preferred, identity, attempts[n], name, names, n);
    }
  }

  /**
   * The file of an expired upload is removed in time: from a fresh cleanup row, when no attempt fails and the
   * attempts are as many as the pages that all the names ever shown would fill, the row is gone and the file is
   * recorded as removed, however the directory changed in between.
   */
  lemma UploadFileIsRemoved(l: Ledger, s: nat, preferred: I.Name, identity: nat, attempts: seq<Attempted>,
                            name: I.Name, names: set<I.Name>)
    requires s in l.cleanups && l.cleanups[s].cursor.None? && FileStays(attempts, name, identity, names)
    requires 0 < |names| <= 64 * |attempts|
    ensures var next := AttemptsOn(l, s, preferred, identity, attempts); s !in next.cleanups && s in next.removed
  {
    ScanAdvances(l, s, preferred, identity, attempts, name, names);
    var next := AttemptsOn(l, s, preferred, identity, attempts);
    if s in next.cleanups {
      var cursor := next.cleanups[s].cursor;
      assert name in attempts[0].sight.entries && name in names;
      assert name !in I.Behind(names, cursor);
      I.SmallerSet(I.Behind(names, cursor) + {name}, names);
    }
  }

  /** Whatever the directory shows, the row goes only with its file: an attempt removed a name that led to it and to nothing else. */
  lemma RowGoesWithFile(l: Ledger, s: nat, preferred: I.Name, identity: nat, attempt: Attempted)
    requires s in l.cleanups && I.Listing(attempt.sight.entries)
    ensures var next, sight := AttemptOn(l, s, preferred, identity, attempt), attempt.sight;
            && (s !in next.cleanups <==> exists name :: RemovesNow(l, s, preferred, identity, attempt, name))
            && (s in next.removed <==> s in l.removed || s !in next.cleanups)
  {
    var outcome := I.Attempt(attempt.sight.dir, attempt.sight.entries, preferred, identity, l.cleanups[s].cursor,
                             attempt.sight.linkedElsewhere, attempt.sight.scanFails);
    RemovesExactly(l, s, preferred, identity, attempt, outcome);
    RowFollows(l, s, preferred, identity, attempt, outcome);
    if outcome.Removed? {
      assert RemovesNow(l, s, preferred, identity, attempt, outcome.name);
    }
  }

  lemma RemovesExactly(l: Ledger, s: nat, preferred: I.Name, identity: nat, attempt: Attempted, outcome: I.Outcome)
    requires s in l.cleanups && I.Listing(attempt.sight.entries)
    requires outcome == I.Attempt(attempt.sight.dir, attempt.sight.entries, preferred, identity, l.cleanups[s].cursor,
                                  attempt.sight.linkedElsewhere, attempt.sight.scanFails)
    ensures forall name :: outcome == I.Removed(name) <==> RemovesNow(l, s, preferred, identity, attempt, name)
  {
    I.AttemptAnswers(attempt.sight.dir, attempt.sight.entries, preferred, identity, l.cleanups[s].cursor,
                     attempt.sight.linkedElsewhere, attempt.sight.scanFails);
  }

  lemma RowFollows(l: Ledger, s: nat, preferred: I.Name, identity: nat, attempt: Attempted, outcome: I.Outcome)
    requires s in l.cleanups
    requires outcome == I.Attempt(attempt.sight.dir, attempt.sight.entries, preferred, identity, l.cleanups[s].cursor,
                                  attempt.sight.linkedElsewhere, attempt.sight.scanFails)
    ensures var next := AttemptOn(l, s, preferred, identity, attempt);
            && (s !in next.cleanups <==> outcome.Removed?)
            && (s in next.removed <==> s in l.removed || outcome.Removed?)
  {
  }

  /** The name leads to the file, the attempt sees it, and it is the file's only name. */
  ghost predicate RemovesNow(l: Ledger, s: nat, preferred: I.Name, identity: nat, attempt: Attempted, name: I.Name)
    requires s in l.cleanups
  {
    var sight := attempt.sight;
    && name in sight.dir && sight.dir[name] == identity
    && I.SoleLink(sight.dir, name, identity, sight.linkedElsewhere)
    && if preferred in sight.dir && sight.dir[preferred] == identity then name == preferred
       else !sight.scanFails && name in I.PageOf(sight.entries, l.cleanups[s].cursor).names
  }
}
