/**
 * Removal of a file known by its identity: a bounded scan that visits a sorted directory page by
 * page, from a stored cursor, while the directory changes between pages.
 */
module IdentityScan {
  import opened Prelude
  import opened BigEndian

  const MAX_IDENTITY_SCAN_ENTRIES: nat := 64

  /** A file name; names are compared byte by byte. */
  type Name = seq<Byte>

  /** What a directory lists: each name once, in order. */
  ghost predicate Listing(entries: seq<Name>) {
    forall i, j :: 0 <= i < j < |entries| ==> LexLess(entries[i], entries[j])
  }

  predicate After(name: Name, cursor: Option<Name>) {
    cursor.Some? ==> LexLess(cursor.value, name)
  }

  datatype Page = Page(names: seq<Name>, next: Option<Name>, wrapped: bool)

  /** How many of the leading names are not after the cursor. */
  function Skipped(entries: seq<Name>, cursor: Option<Name>): (n: nat)
    ensures n <= |entries|
    ensures forall i :: 0 <= i < n ==> !After(entries[i], cursor)
    ensures n < |entries| ==> After(entries[n], cursor)
  {
    if entries == [] || After(entries[0], cursor) then 0
    else
      var n := Skipped(entries[1..], cursor);
      assert forall i :: 1 <= i <= n ==> entries[i] == entries[1..][i - 1];
      n + 1
  }

  /** One page: up to 64 names after the cursor, from the start again when nothing is left after it. */
  function PageOf(entries: seq<Name>, cursor: Option<Name>): Page {
    var skipped := Skipped(entries, cursor);
    var wrapped := skipped == |entries| && cursor.Some?;
    var start := if wrapped then 0 else skipped;
    var end := Min(start + MAX_IDENTITY_SCAN_ENTRIES, |entries|);
    Page(entries[start..end], if end < |entries| then Some(entries[end - 1]) else None, wrapped)
  }

  /** `enumerate_identity_scan_page` on a sorted listing. */
  method EnumeratePage(entries: seq<Name>, cursor: Option<Name>) returns (page: seq<Name>, next: Option<Name>)
    requires Listing(entries)
    ensures page == PageOf(entries, cursor).names && next == PageOf(entries, cursor).next
  {
    var start := 0;
    if cursor.Some? {
      while start < |entries| && !LexLess(cursor.value, entries[start])
        invariant start <= |entries|
        invariant forall i :: 0 <= i < start ==> !After(entries[i], cursor)
      {
        start := start + 1;
      }
    }
    assert start == Skipped(entries, cursor);
    if start == |entries| && cursor.Some? {
      start := 0;
    }
    var end := if start + MAX_IDENTITY_SCAN_ENTRIES <= |entries| then start + MAX_IDENTITY_SCAN_ENTRIES else |entries|;
    page := entries[start..end];
    next := if end < |entries| then Some(entries[end - 1]) else None;
  }

  /** A page that did not wrap shows exactly the names after the cursor and not after the next cursor. */
  lemma PageCovers(entries: seq<Name>, cursor: Option<Name>, name: Name)
    requires Listing(entries) && name in entries && !PageOf(entries, cursor).wrapped
    ensures var page := PageOf(entries, cursor);
            name in page.names <==> After(name, cursor) && (page.next.Some? ==> !LexLess(page.next.value, name))
  {
    var page := PageOf(entries, cursor);
    var skipped := Skipped(entries, cursor);
    var end := Min(skipped + MAX_IDENTITY_SCAN_ENTRIES, |entries|);
    var k :| 0 <= k < |entries| && entries[k] == name;
    AfterFromSkipped(entries, cursor, k);
    BeforeEnd(entries, k, end);
    InSlice(entries, skipped, end, k);
    assert page.names == entries[skipped..end] && page.next == if end < |entries| then Some(entries[end - 1]) else None;
  }

  lemma InSlice(entries: seq<Name>, from: nat, to: nat, k: nat)
    requires Listing(entries) && from <= to <= |entries| && k < |entries|
    ensures entries[k] in entries[from..to] <==> from <= k < to
  {
    if from <= k < to {
      assert entries[from..to][k - from] == entries[k];
    }
    if entries[k] in entries[from..to] {
      var j :| 0 <= j < to - from && entries[from..to][j] == entries[k];
      SamePlace(entries, from + j, k);
    }
  }

  /** The names after the cursor are those not skipped. */
  lemma AfterFromSkipped(entries: seq<Name>, cursor: Option<Name>, k: nat)
    requires Listing(entries) && k < |entries|
    ensures After(entries[k], cursor) <==> Skipped(entries, cursor) <= k
  {
    var skipped := Skipped(entries, cursor);
    if skipped < k && cursor.Some? {
      LexTransitive(cursor.value, entries[skipped], entries[k]);
    }
  }

  /** The names before the end of a page are those up to the cursor it leaves. */
  lemma BeforeEnd(entries: seq<Name>, k: nat, end: nat)
    requires Listing(entries) && k < |entries| && 0 < end <= |entries|
    ensures k < end <==> !LexLess(entries[end - 1], entries[k])
  {
    if k < end - 1 {
      if LexLess(entries[end - 1], entries[k]) {
        LexTransitive(entries[k], entries[end - 1], entries[k]);
        LexIrreflexive(entries[k]);
      }
    } else if k == end - 1 {
      LexIrreflexive(entries[k]);
    }
  }

  lemma SamePlace(entries: seq<Name>, i: nat, j: nat)
    requires Listing(entries) && i < |entries| && j < |entries| && entries[i] == entries[j]
    ensures i == j
  {
    LexIrreflexive(entries[i]);
  }

  /** With nothing listed after the cursor the page starts over. */
  lemma PageStartsOver(entries: seq<Name>, cursor: Option<Name>)
    requires cursor.Some? && forall name :: name in entries ==> !After(name, cursor)
    ensures PageOf(entries, cursor) == PageOf(entries, None).(wrapped := true)
  {
    SomethingAfter(entries, cursor);
  }

  lemma SomethingAfter(entries: seq<Name>, cursor: Option<Name>)
    ensures Skipped(entries, cursor) < |entries| ==> exists name :: name in entries && After(name, cursor)
  {
    if Skipped(entries, cursor) < |entries| {
      assert entries[Skipped(entries, cursor)] in entries;
    }
  }

  /** A page that wraps proves that nothing listed is after the cursor. */
  lemma WrapMeansDone(entries: seq<Name>, cursor: Option<Name>, name: Name)
    requires name in entries && PageOf(entries, cursor).wrapped
    ensures !After(name, cursor)
  {
  }

  // A scan over changing listings.

  /** The cursor after scanning the first n listings. */
  function CursorAfter(listings: seq<seq<Name>>, n: nat): Option<Name>
    requires n <= |listings|
  {
    if n == 0 then None else PageOf(listings[n - 1], CursorAfter(listings, n - 1)).next
  }

  function PageAt(listings: seq<seq<Name>>, n: nat): Page
    requires n < |listings|
  {
    PageOf(listings[n], CursorAfter(listings, n))
  }

  /** The scan went on over the first n listings: each page left a cursor and none wrapped. */
  predicate StillScanning(listings: seq<seq<Name>>, n: nat)
    requires n <= |listings|
  {
    forall i :: 0 <= i < n ==> PageAt(listings, i).next.Some? && !PageAt(listings, i).wrapped
  }

  predicate SeenBefore(listings: seq<seq<Name>>, n: nat, name: Name)
    requires n <= |listings|
  {
    exists i :: 0 <= i < n && name in PageAt(listings, i).names
  }

  lemma {:induction false} ScannedSoFar(listings: seq<seq<Name>>, n: nat, name: Name)
    requires n <= |listings| && StillScanning(listings, n)
    requires forall i :: 0 <= i < |listings| ==> Listing(listings[i]) && name in listings[i]
    ensures n > 0 && !After(name, CursorAfter(listings, n)) ==> SeenBefore(listings, n, name)
  {
    if n > 0 {
      ScannedSoFar(listings, n - 1, name);
      assert StillScanning(listings, n - 1);
      assert PageAt(listings, n - 1).next.Some?;
      if !After(name, CursorAfter(listings, n)) {
        PageCovers(listings[n - 1], CursorAfter(listings, n - 1), name);
        if After(name, CursorAfter(listings, n - 1)) {
          assert name in PageAt(listings, n - 1).names;
        } else {
          var i :| 0 <= i < n - 1 && name in PageAt(listings, i).names;
          assert SeenBefore(listings, n, name);
        }
      }
    }
  }

  /**
   * A scan misses nothing: when it ends, by running out of names or by wrapping, every name listed
   * throughout has been on a page, however the directory changed in between.
   */
  lemma ScanMissesNothing(listings: seq<seq<Name>>, n: nat, name: Name)
    requires n < |listings| && StillScanning(listings, n)
    requires forall i :: 0 <= i < |listings| ==> Listing(listings[i]) && name in listings[i]
    requires PageAt(listings, n).wrapped || PageAt(listings, n).next.None?
    ensures SeenBefore(listings, n + 1, name)
  {
    ScannedSoFar(listings, n, name);
    var cursor := CursorAfter(listings, n);
    if PageAt(listings, n).wrapped {
      WrapMeansDone(listings[n], cursor, name);
    } else {
      PageCovers(listings[n], cursor, name);
    }
    if After(name, cursor) {
      assert name in PageAt(listings, n).names;
    } else {
      var i :| 0 <= i < n && name in PageAt(listings, i).names;
      assert SeenBefore(listings, n + 1, name);
    }
  }

  // One attempt at a removal, and the intent row it updates.

  /** The files of a directory; a name leads to a file identity. */
  type Directory = map<Name, nat>

  datatype Outcome = Removed(name: Name) | Continue(next: Option<Name>) | NotFound | Failed

  ghost predicate ListingOf(entries: seq<Name>, dir: Directory) {
    forall name :: name in entries <==> name in dir
  }

  /** Some other name leads to the same file, here or elsewhere. */
  predicate Ambiguous(dir: Directory, name: Name, identity: nat, linkedElsewhere: bool) {
    linkedElsewhere || exists other :: other in dir && other != name && dir[other] == identity
  }

  /** The name is the only one of the file, in this directory and elsewhere. */
  ghost predicate SoleLink(dir: Directory, name: Name, identity: nat, linkedElsewhere: bool) {
    !linkedElsewhere && forall other :: other in dir && dir[other] == identity ==> other == name
  }

  function Matches(names: seq<Name>, dir: Directory, identity: nat): seq<Name> {
    if names == [] then []
    else Matches(names[..|names| - 1], dir, identity)
         + if names[|names| - 1] in dir && dir[names[|names| - 1]] == identity then [names[|names| - 1]] else []
  }

  /** What one attempt answers: the known name first, then one page of the directory. */
  function Attempt(dir: Directory, entries: seq<Name>, preferred: Name, identity: nat, cursor: Option<Name>,
                   linkedElsewhere: bool, scanFails: bool): Outcome
  {
    if preferred in dir && dir[preferred] == identity then
      if Ambiguous(dir, preferred, identity, linkedElsewhere) then Failed else Removed(preferred)
    else if scanFails then Failed
    else
      var page := PageOf(entries, cursor);
      var matches := Matches(page.names, dir, identity);
      if |matches| > 1 then Failed
      else if |matches| == 1 then
        if Ambiguous(dir, matches[0], identity, linkedElsewhere) then Failed else Removed(matches[0])
      else if page.next.None? && cursor.None? then NotFound
      else Continue(page.next)
  }

  /** Opens each candidate of a page and keeps those with the wanted identity. */
  method FindMatches(page: seq<Name>, dir: Directory, identity: nat) returns (matches: seq<Name>)
    ensures matches == Matches(page, dir, identity)
    ensures forall m :: m in matches ==> m in dir && dir[m] == identity
  {
    matches := [];
    for i := 0 to |page|
      invariant matches == Matches(page[..i], dir, identity)
      invariant forall m :: m in matches ==> m in dir && dir[m] == identity
    {
      assert page[..i + 1][..i] == page[..i];
      if page[i] in dir && dir[page[i]] == identity {
        matches := matches + [page[i]];
      }
    }
    assert page[..|page|] == page;
  }

  /** `remove_file_if_identity_page`; the scan fails when the directory is too large or the time bound passes. */
  method RemoveFileIfIdentityPage(dir: Directory, entries: seq<Name>, preferred: Name, identity: nat,
                                  cursor: Option<Name>, linkedElsewhere: bool, scanFails: bool)
    returns (outcome: Outcome, after: Directory)
    requires Listing(entries) && ListingOf(entries, dir)
    ensures outcome == Attempt(dir, entries, preferred, identity, cursor, linkedElsewhere, scanFails)
    ensures after == if outcome.Removed? then dir - {outcome.name} else dir
    ensures outcome.Removed? ==> outcome.name in dir && dir[outcome.name] == identity && !linkedElsewhere
    ensures outcome.Removed? ==> forall other :: other in after ==> after[other] != identity
  {
    after := dir;
    if preferred in dir && dir[preferred] == identity {
      if Ambiguous(dir, preferred, identity, linkedElsewhere) { return Failed, dir; }
      return Removed(preferred), dir - {preferred};
    }
    if scanFails { return Failed, dir; }
    var page, next := EnumeratePage(entries, cursor);
    var matches := FindMatches(page, dir, identity);
    if |matches| > 1 { return Failed, dir; }
    if |matches| == 1 {
      assert matches[0] in matches;
      if Ambiguous(dir, matches[0], identity, linkedElsewhere) { return Failed, dir; }
      return Removed(matches[0]), dir - {matches[0]};
    }
    outcome := if next.None? && cursor.None? then NotFound else Continue(next);
  }

  /** A name the page shows leads to the file. */
  predicate ShownOn(names: seq<Name>, dir: Directory, identity: nat, name: Name) {
    name in names && name in dir && dir[name] == identity
  }

  lemma {:induction false} MatchesAreShown(names: seq<Name>, dir: Directory, identity: nat)
    ensures forall m :: m in Matches(names, dir, identity) <==> ShownOn(names, dir, identity, m)
    decreases |names|
  {
    if names != [] {
      MatchesAreShown(names[..|names| - 1], dir, identity);
      assert names == names[..|names| - 1] + [names[|names| - 1]];
    }
  }

  /**
   * When an attempt removes a file, when it fails, and when it reports that there is none: the known name comes
   * first, then the page; a file with another name is never removed, and one look at a directory that fits on a
   * page is a whole scan.
   */
  lemma AttemptAnswers(dir: Directory, entries: seq<Name>, preferred: Name, identity: nat, cursor: Option<Name>,
                       linkedElsewhere: bool, scanFails: bool)
    requires Listing(entries)
    ensures var outcome := Attempt(dir, entries, preferred, identity, cursor, linkedElsewhere, scanFails);
            var page := PageOf(entries, cursor);
            var known := preferred in dir && dir[preferred] == identity;
            && (forall name :: outcome == Removed(name) <==>
                  && SoleLink(dir, name, identity, linkedElsewhere)
                  && if known then name == preferred else !scanFails && ShownOn(page.names, dir, identity, name))
            && (outcome == Failed <==>
                  if known then !SoleLink(dir, preferred, identity, linkedElsewhere)
                  else scanFails
                       || exists name :: ShownOn(page.names, dir, identity, name) && !SoleLink(dir, name, identity, linkedElsewhere))
            && (outcome == NotFound <==>
                  && !known && !scanFails && page.next.None? && cursor.None?
                  && forall name :: !ShownOn(page.names, dir, identity, name))
            && (outcome.Continue? ==> outcome.next == page.next)
  {
    if preferred !in dir || dir[preferred] != identity {
      PageAnswers(dir, entries, preferred, identity, cursor, linkedElsewhere, scanFails);
    }
  }

  /** The same when the known name does not lead to the file. */
  lemma PageAnswers(dir: Directory, entries: seq<Name>, preferred: Name, identity: nat, cursor: Option<Name>,
                    linkedElsewhere: bool, scanFails: bool)
    requires Listing(entries) && (preferred !in dir || dir[preferred] != identity)
    ensures var outcome := Attempt(dir, entries, preferred, identity, cursor, linkedElsewhere, scanFails);
            var page := PageOf(entries, cursor);
            && (forall name :: outcome == Removed(name) <==>
                  SoleLink(dir, name, identity, linkedElsewhere) && !scanFails && ShownOn(page.names, dir, identity, name))
            && (outcome == Failed <==>
                  scanFails
                  || exists name :: ShownOn(page.names, dir, identity, name) && !SoleLink(dir, name, identity, linkedElsewhere))
            && (outcome == NotFound <==>
                  !scanFails && page.next.None? && cursor.None? && forall name :: !ShownOn(page.names, dir, identity, name))
            && (outcome.Continue? ==> outcome.next == page.next)
  {
    var page := PageOf(entries, cursor);
    PageSorted(entries, cursor);
    MatchesTell(page.names, dir, identity, linkedElsewhere);
  }

  /** What the number of matches says about the names shown. */
  lemma MatchesTell(names: seq<Name>, dir: Directory, identity: nat, linkedElsewhere: bool)
    requires Listing(names)
    ensures var matches := Matches(names, dir, identity);
            if matches == [] then forall name :: !ShownOn(names, dir, identity, name)
            else
              && ShownOn(names, dir, identity, matches[0])
              && (|matches| == 1 ==> forall name :: ShownOn(names, dir, identity, name) ==> name == matches[0])
              && (|matches| > 1 ==> forall name :: ShownOn(names, dir, identity, name) ==> !SoleLink(dir, name, identity, linkedElsewhere))
  {
    var matches := Matches(names, dir, identity);
    MatchesAreShown(names, dir, identity);
    MatchesDiffer(names, dir, identity);
    if matches != [] {
      assert matches[0] in matches;
    }
    if |matches| > 1 {
      assert matches[1] in matches && matches[0] != matches[1];
      assert ShownOn(names, dir, identity, matches[0]) && ShownOn(names, dir, identity, matches[1]);
    }
  }

  predicate AllDiffer(names: seq<Name>) {
    forall i, j :: 0 <= i < j < |names| ==> names[i] != names[j]
  }

  lemma {:induction false} MatchesDiffer(names: seq<Name>, dir: Directory, identity: nat)
    requires Listing(names)
    ensures AllDiffer(Matches(names, dir, identity))
    decreases |names|
  {
    if names != [] {
      var n := |names| - 1;
      MatchesDiffer(names[..n], dir, identity);
      MatchesAreShown(names[..n], dir, identity);
      if names[n] in names[..n] {
        LexIrreflexive(names[n]);
      }
      var earlier := Matches(names[..n], dir, identity);
      forall i | 0 <= i < |earlier| ensures earlier[i] != names[n] {
        assert earlier[i] in earlier;
      }
      assert Matches(names, dir, identity) == earlier || Matches(names, dir, identity) == earlier + [names[n]];
    }
  }

  /** The intent row: gone once its file was removed, put off for a day when the scan gave up. */
  datatype IntentRow = Gone | Waiting(cursor: Option<Name>, secondPass: bool) | PutOff

  /** How `process_cleanup_outbox` updates a row; a failed attempt only delays it. */
  function UpdateRow(row: IntentRow, outcome: Outcome): IntentRow
    requires row.Waiting?
  {
    match outcome
    case Removed(_) => Gone
    case Continue(next) =>
      if next.Some? then row.(cursor := next)
      else if row.cursor.Some? && !row.secondPass then Waiting(None, true)
      else PutOff
    case NotFound => PutOff
    case Failed => row
  }

  /** What the directory looks like at one attempt. */
  datatype Sight = Sight(dir: Directory, entries: seq<Name>, linkedElsewhere: bool, scanFails: bool)

  /** The row after attempts that saw the given directories, from a fresh intent. */
  function RowAfter(sights: seq<Sight>, preferred: Name, identity: nat): IntentRow {
    if sights == [] then Waiting(None, false)
    else
      var row := RowAfter(sights[..|sights| - 1], preferred, identity);
      var sight := sights[|sights| - 1];
      if !row.Waiting? then row
      else UpdateRow(row, Attempt(sight.dir, sight.entries, preferred, identity, row.cursor,
                                  sight.linkedElsewhere, sight.scanFails))
  }

  /** What the attempt on the last of these sights answered, from the row the earlier ones left. */
  function LastOutcome(sights: seq<Sight>, preferred: Name, identity: nat): Option<Outcome>
    requires sights != []
  {
    var row := RowAfter(sights[..|sights| - 1], preferred, identity);
    var sight := sights[|sights| - 1];
    if !row.Waiting? then None
    else Some(Attempt(sight.dir, sight.entries, preferred, identity, row.cursor, sight.linkedElsewhere, sight.scanFails))
  }

  /** The k-th attempt was made, and removed the file. */
  predicate RemovedAt(sights: seq<Sight>, preferred: Name, identity: nat, k: nat) {
    k < |sights| && LastOutcome(sights[..k + 1], preferred, identity).Some?
    && LastOutcome(sights[..k + 1], preferred, identity).value.Removed?
  }

  /**
   * The attempt on the last of these sights found no file in a whole scan, or ended a scan that had been
   * restarted or had not moved.
   */
  predicate GivesUp(sights: seq<Sight>, preferred: Name, identity: nat)
    requires sights != []
  {
    var row := RowAfter(sights[..|sights| - 1], preferred, identity);
    var outcome := LastOutcome(sights, preferred, identity);
    outcome.Some?
    && (outcome.value == NotFound
        || (outcome.value == Continue(None) && row.Waiting? && (row.secondPass || row.cursor.None?)))
  }

  predicate GivenUpAt(sights: seq<Sight>, preferred: Name, identity: nat, k: nat) {
    k < |sights| && GivesUp(sights[..k + 1], preferred, identity)
  }

  /** One attempt on a waiting row: only a removal ends it, a failure leaves it, a page moves its cursor. */
  lemma RowStep(sights: seq<Sight>, preferred: Name, identity: nat)
    requires sights != [] && RowAfter(sights[..|sights| - 1], preferred, identity).Waiting?
    ensures var row, next := RowAfter(sights[..|sights| - 1], preferred, identity), RowAfter(sights, preferred, identity);
            match LastOutcome(sights, preferred, identity).value
            case Removed(name) =>
              var dir := sights[|sights| - 1].dir;
              next == Gone && name in dir && dir[name] == identity
              && SoleLink(dir, name, identity, sights[|sights| - 1].linkedElsewhere)
            case Failed => next == row
            case NotFound => next == PutOff
            case Continue(cursor) =>
              if cursor.Some? then next == Waiting(cursor, row.secondPass)
              else if row.cursor.Some? && !row.secondPass then next == Waiting(None, true)
              else next == PutOff
  {
    var sight, row := sights[|sights| - 1], RowAfter(sights[..|sights| - 1], preferred, identity);
    var matches := Matches(PageOf(sight.entries, row.cursor).names, sight.dir, identity);
    MatchesAreShown(PageOf(sight.entries, row.cursor).names, sight.dir, identity);
    if matches != [] {
      assert matches[0] in matches;
    }
  }

  /** Whatever the directory shows, an intent is gone exactly when an attempt has removed the file. */
  lemma {:induction false} GoneMeansRemoved(sights: seq<Sight>, preferred: Name, identity: nat)
    ensures RowAfter(sights, preferred, identity) == Gone <==> exists k: nat :: RemovedAt(sights, preferred, identity, k)
    decreases |sights|
  {
    if sights != [] {
      var n := |sights| - 1;
      GoneMeansRemoved(sights[..n], preferred, identity);
      assert sights[..n + 1] == sights;
      forall k: nat | k < n ensures RemovedAt(sights, preferred, identity, k) <==> RemovedAt(sights[..n], preferred, identity, k) {
        assert sights[..n][..k + 1] == sights[..k + 1];
      }
      if RowAfter(sights[..n], preferred, identity).Waiting? {
        RowStep(sights, preferred, identity);
        if RowAfter(sights, preferred, identity) == Gone {
          assert RemovedAt(sights, preferred, identity, n);
        }
      }
      if k: nat :| RemovedAt(sights[..n], preferred, identity, k) {
        assert RemovedAt(sights, preferred, identity, k);
      }
    }
  }

  lemma PutOffNow(sights: seq<Sight>, preferred: Name, identity: nat)
    requires sights != []
    ensures RowAfter(sights, preferred, identity) == PutOff
            <==> RowAfter(sights[..|sights| - 1], preferred, identity) == PutOff || GivesUp(sights, preferred, identity)
  {
    if RowAfter(sights[..|sights| - 1], preferred, identity).Waiting? {
      RowStep(sights, preferred, identity);
    }
  }

  /** And it has been put off exactly when an attempt gave the scan up. */
  lemma {:induction false} PutOffMeansGivenUp(sights: seq<Sight>, preferred: Name, identity: nat)
    ensures RowAfter(sights, preferred, identity) == PutOff <==> exists k: nat :: GivenUpAt(sights, preferred, identity, k)
    decreases |sights|
  {
    if sights != [] {
      var n := |sights| - 1;
      PutOffMeansGivenUp(sights[..n], preferred, identity);
      PutOffNow(sights, preferred, identity);
      assert sights[..n + 1] == sights;
      forall k: nat | k < n ensures GivenUpAt(sights, preferred, identity, k) <==> GivenUpAt(sights[..n], preferred, identity, k) {
        assert sights[..n][..k + 1] == sights[..k + 1];
      }
      assert GivenUpAt(sights, preferred, identity, n) <==> GivesUp(sights, preferred, identity);
      if k: nat :| GivenUpAt(sights[..n], preferred, identity, k) {
        assert GivenUpAt(sights, preferred, identity, k);
      }
    }
  }

  /** The file is in the directory under one stable name and no other. */
  ghost predicate HasStableFile(sight: Sight, name: Name, identity: nat) {
    && Listing(sight.entries) && ListingOf(sight.entries, sight.dir)
    && name in sight.dir && sight.dir[name] == identity
    && SoleLink(sight.dir, name, identity, sight.linkedElsewhere)
  }

  lemma {:induction false} MatchesAre(names: seq<Name>, dir: Directory, identity: nat, name: Name)
    requires forall other :: other in dir && dir[other] == identity <==> other == name
    ensures forall m :: m in Matches(names, dir, identity) ==> m == name && name in names
    ensures name in names ==> name in Matches(names, dir, identity)
    decreases |names|
  {
    if names != [] {
      MatchesAre(names[..|names| - 1], dir, identity, name);
      assert names == names[..|names| - 1] + [names[|names| - 1]];
    }
  }

  /** While the file is there and the cursor has not passed it, an attempt removes it or moves the cursor towards it. */
  lemma AttemptFinds(sight: Sight, preferred: Name, identity: nat, cursor: Option<Name>, name: Name)
    requires HasStableFile(sight, name, identity) && After(name, cursor)
    ensures var outcome := Attempt(sight.dir, sight.entries, preferred, identity, cursor, sight.linkedElsewhere, sight.scanFails);
            || outcome == Removed(name)
            || outcome == Failed
            || (outcome.Continue? && outcome.next.Some? && After(name, outcome.next))
  {
    var page := PageOf(sight.entries, cursor);
    if page.wrapped {
      WrapMeansDone(sight.entries, cursor, name);
    }
    PageCovers(sight.entries, cursor, name);
    MatchesAre(page.names, sight.dir, identity, name);
    var matches := Matches(page.names, sight.dir, identity);
    if matches != [] {
      assert matches[0] in matches;
    }
  }

  /**
   * An intent whose file keeps one name and one identity is never put off: until the file has been
   * removed the row keeps scanning, on its first pass and with the file still ahead.
   */
  lemma {:induction false} StableFileIsNeverPutOff(sights: seq<Sight>, preferred: Name, identity: nat, name: Name)
    requires forall i :: 0 <= i < |sights| ==> HasStableFile(sights[i], name, identity)
    ensures var row := RowAfter(sights, preferred, identity);
            if exists k: nat :: RemovedAt(sights, preferred, identity, k) then row == Gone
            else row.Waiting? && !row.secondPass && After(name, row.cursor)
    decreases |sights|
  {
    GoneMeansRemoved(sights, preferred, identity);
    if sights != [] {
      var n := |sights| - 1;
      StableFileIsNeverPutOff(sights[..n], preferred, identity, name);
      GoneMeansRemoved(sights[..n], preferred, identity);
      var row := RowAfter(sights[..n], preferred, identity);
      if row.Waiting? {
        AttemptFinds(sights[n], preferred, identity, row.cursor, name);
      }
    }
  }

  // How soon the file is found.

  /** Every name the directory shows at some attempt. */
  ghost predicate ShowsOnly(sights: seq<Sight>, names: set<Name>) {
    forall i :: 0 <= i < |sights| ==> forall name :: name in sights[i].entries ==> name in names
  }

  /** The names a scan at this cursor has behind it. */
  ghost function Behind(names: set<Name>, cursor: Option<Name>): set<Name> {
    set name | name in names && !After(name, cursor)
  }

  lemma PageSorted(entries: seq<Name>, cursor: Option<Name>)
    requires Listing(entries)
    ensures Listing(PageOf(entries, cursor).names)
    ensures forall name :: name in PageOf(entries, cursor).names ==> name in entries
    ensures PageOf(entries, cursor).next.Some? ==> |PageOf(entries, cursor).names| == 64
  {
  }

  /** The names of a page that does not wrap and leaves a cursor: 64 of them, newly behind the scan. */
  lemma PageAdvances(entries: seq<Name>, cursor: Option<Name>, names: set<Name>)
    requires Listing(entries) && forall name :: name in entries ==> name in names
    requires !PageOf(entries, cursor).wrapped && PageOf(entries, cursor).next.Some?
    ensures |Behind(names, cursor)| + 64 <= |Behind(names, PageOf(entries, cursor).next)|
  {
    var page := PageOf(entries, cursor);
    var shown := set name | name in page.names;
    PageSorted(entries, cursor);
    DistinctNames(page.names);
    forall name | name in Behind(names, cursor) + shown ensures name in Behind(names, page.next) {
      if name in page.names {
        PageCovers(entries, cursor, name);
      } else {
        StaysBehind(entries, cursor, name);
      }
    }
    forall name | name in shown ensures name !in Behind(names, cursor) {
      PageCovers(entries, cursor, name);
    }
    SmallerSet(Behind(names, cursor) + shown, Behind(names, page.next));
  }

  /** The cursor only moves on. */
  lemma StaysBehind(entries: seq<Name>, cursor: Option<Name>, name: Name)
    requires Listing(entries) && !PageOf(entries, cursor).wrapped && PageOf(entries, cursor).next.Some?
    requires !After(name, cursor)
    ensures !After(name, PageOf(entries, cursor).next)
  {
    var next := PageOf(entries, cursor).next.value;
    assert next in PageOf(entries, cursor).names;
    PageCovers(entries, cursor, next);
    if LexLess(next, name) {
      LexTransitive(cursor.value, next, name);
    }
  }

  lemma {:induction false} DistinctNames(names: seq<Name>)
    requires Listing(names)
    ensures |set name | name in names| == |names|
    decreases |names|
  {
    if names == [] {
      assert (set name | name in names) == {};
    } else {
      var n := |names| - 1;
      DistinctNames(names[..n]);
      if names[n] in names[..n] {
        LexIrreflexive(names[n]);
      }
      assert (set name | name in names) == (set name | name in names[..n]) + {names[n]};
    }
  }

  lemma SmallerSet(small: set<Name>, large: set<Name>)
    requires small <= large
    ensures |small| <= |large|
  {
    assert large == small + (large - small);
  }

  /** A page lists each name once, so at most one entry leads to a file with one name. */
  lemma {:induction false} OneMatch(names: seq<Name>, dir: Directory, identity: nat, name: Name)
    requires Listing(names)
    requires forall other :: other in dir && dir[other] == identity <==> other == name
    ensures |Matches(names, dir, identity)| <= 1
    decreases |names|
  {
    if names != [] {
      var n := |names| - 1;
      OneMatch(names[..n], dir, identity, name);
      MatchesAre(names[..n], dir, identity, name);
      var earlier := Matches(names[..n], dir, identity);
      if earlier != [] && names[n] == name {
        assert earlier[0] in earlier;
        LexIrreflexive(name);
      }
    }
  }

  /** Without a failing scan an attempt at a stable file does not fail. */
  lemma AttemptSucceeds(sight: Sight, preferred: Name, identity: nat, cursor: Option<Name>, name: Name)
    requires HasStableFile(sight, name, identity) && !sight.scanFails
    ensures Attempt(sight.dir, sight.entries, preferred, identity, cursor, sight.linkedElsewhere, sight.scanFails) != Failed
  {
    OnlyName(sight, name, identity);
    PageMatches(sight, identity, cursor, name);
  }

  lemma OnlyName(sight: Sight, name: Name, identity: nat)
    requires HasStableFile(sight, name, identity)
    ensures forall other :: other in sight.dir && sight.dir[other] == identity <==> other == name
  {
  }

  /** A page has the stable file's name among its matches or none. */
  lemma PageMatches(sight: Sight, identity: nat, cursor: Option<Name>, name: Name)
    requires Listing(sight.entries)
    requires forall other :: other in sight.dir && sight.dir[other] == identity <==> other == name
    ensures var matches := Matches(PageOf(sight.entries, cursor).names, sight.dir, identity); matches == [] || matches == [name]
  {
    var page := PageOf(sight.entries, cursor);
    PageSorted(sight.entries, cursor);
    MatchesAre(page.names, sight.dir, identity, name);
    OneMatch(page.names, sight.dir, identity, name);
    var matches := Matches(page.names, sight.dir, identity);
    if matches != [] {
      assert matches[0] in matches;
      assert matches == [matches[0]];
    }
  }

  /** Each attempt that has not found the file has put 64 more names behind the scan. */
  lemma {:induction false} ScanProgress(sights: seq<Sight>, preferred: Name, identity: nat, name: Name, names: set<Name>)
    requires forall i :: 0 <= i < |sights| ==> HasStableFile(sights[i], name, identity) && !sights[i].scanFails
    requires ShowsOnly(sights, names)
    ensures var row := RowAfter(sights, preferred, identity);
            row == Gone
            || (row.Waiting? && After(name, row.cursor)
                && 64 * |sights| <= |Behind(names, row.cursor)|)
    decreases |sights|
  {
    if sights != [] {
      var n := |sights| - 1;
      ScanProgress(sights[..n], preferred, identity, name, names);
      var row := RowAfter(sights[..n], preferred, identity);
      if row.Waiting? {
        OneAttempt(sights[n], preferred, identity, row.cursor, name, names);
      }
    }
  }

  lemma OneAttempt(sight: Sight, preferred: Name, identity: nat, cursor: Option<Name>, name: Name, names: set<Name>)
    requires HasStableFile(sight, name, identity) && !sight.scanFails && After(name, cursor)
    requires forall other :: other in sight.entries ==> other in names
    ensures var outcome := Attempt(sight.dir, sight.entries, preferred, identity, cursor, sight.linkedElsewhere, sight.scanFails);
            || outcome == Removed(name)
            || (outcome.Continue? && outcome.next.Some? && After(name, outcome.next)
                && |Behind(names, cursor)| + 64 <= |Behind(names, outcome.next)|)
  {
    AttemptFinds(sight, preferred, identity, cursor, name);
    AttemptSucceeds(sight, preferred, identity, cursor, name);
    if PageOf(sight.entries, cursor).wrapped {
      WrapMeansDone(sight.entries, cursor, name);
    } else if PageOf(sight.entries, cursor).next.Some? {
      PageAdvances(sight.entries, cursor, names);
    }
  }

  /**
   * A stable file is removed in time: when no attempt fails, and the attempts are as many as the pages that all
   * the names ever shown would fill, the intent is gone, however the directory changed in between.
   */
  lemma StableFileIsRemoved(sights: seq<Sight>, preferred: Name, identity: nat, name: Name, names: set<Name>)
    requires forall i :: 0 <= i < |sights| ==> HasStableFile(sights[i], name, identity) && !sights[i].scanFails
    requires ShowsOnly(sights, names) && 0 < |names| <= 64 * |sights|
    ensures RowAfter(sights, preferred, identity) == Gone
    ensures exists k: nat :: RemovedAt(sights, preferred, identity, k)
  {
    GoneMeansRemoved(sights, preferred, identity);
    ScanProgress(sights, preferred, identity, name, names);
    var row := RowAfter(sights, preferred, identity);
    if row.Waiting? {
      assert name in sights[0].entries && name in names;
      assert name !in Behind(names, row.cursor);
      SmallerSet(Behind(names, row.cursor) + {name}, names);
    }
  }
}
