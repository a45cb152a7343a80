/**
 * The event log of one job: the full history of its appends, the truncated table the store keeps,
 * and the answer a reconnecting client should get, told from the full history.
 */
module EventLog {
  import opened Prelude
  import opened BigEndian

  const MAX_RETAINED_SUFFIX: nat := 64
  const REVISION_WIDTH: nat := 8

  datatype JobState = Active(name: string) | Completed | Failed | Cancelled {
    predicate Terminal() {
      !Active?
    }
  }

  datatype Snapshot = Snapshot(state: JobState, data: nat)

  /** One append: the event and the snapshot it left. */
  datatype Entry = Entry(kind: string, payload: nat, snapshot: Snapshot)

  /** The kind of an event tells whether it completed the job, and whether it failed it. */
  predicate Telling(entry: Entry) {
    && (entry.kind == "job.completed" <==> entry.snapshot.state == Completed)
    && (entry.kind == "job.failed" <==> entry.snapshot.state == Failed)
  }

  /** A row of the event table; only the event of a completed job is kept outside the window. */
  datatype Row = Row(revision: seq<Byte>, kind: string, payload: nat, completion: bool)

  function EncodeRevision(revision: nat): seq<Byte>
    requires revision < U64_LIMIT
  {
    WideEnough();
    Encode(revision, REVISION_WIDTH)
  }

  lemma WideEnough()
    ensures Pow256(REVISION_WIDTH) == U64_LIMIT
  {
    assert Pow256(4) == 256 * Pow256(3) && Pow256(3) == 256 * Pow256(2) && Pow256(2) == 256 * 256;
    assert Pow256(8) == 256 * Pow256(7) && Pow256(7) == 256 * Pow256(6) && Pow256(6) == 256 * Pow256(5);
    assert Pow256(5) == 256 * Pow256(4);
  }

  /** The stored blobs order and read back like the revisions they stand for. */
  lemma RevisionBlobs(a: nat, b: nat)
    requires a < U64_LIMIT && b < U64_LIMIT
    ensures |EncodeRevision(a)| == REVISION_WIDTH
    ensures Decode(EncodeRevision(a)) == a
    ensures LexLess(EncodeRevision(a), EncodeRevision(b)) <==> a < b
  {
    WideEnough();
    DecodeEncode(a, REVISION_WIDTH);
    DecodeEncode(b, REVISION_WIDTH);
    LexIsNumeric(EncodeRevision(a), EncodeRevision(b));
  }

  /** A history of a job: only its last append can have ended it. */
  predicate WellEnded(history: seq<Entry>) {
    && |history| < U64_LIMIT
    && forall k :: 0 <= k < |history| - 1 ==> !history[k].snapshot.state.Terminal()
  }

  function RowOf(revision: nat, entry: Entry): Row
    requires revision < U64_LIMIT
  {
    Row(EncodeRevision(revision), entry.kind, entry.payload, entry.snapshot.state == Completed)
  }

  /** The event table had nothing ever been deleted; revisions count from 1. */
  function AllRows(history: seq<Entry>): seq<Row>
    requires |history| < U64_LIMIT
  {
    seq(|history|, k requires 0 <= k < |history| => RowOf(k + 1, history[k]))
  }

  function Droppable(rows: seq<Row>): nat {
    if rows == [] then 0 else (if rows[0].completion then 0 else 1) + Droppable(rows[1..])
  }

  /** Of the rows that do not mark completion only the newest `limit` stay. */
  function Newest(rows: seq<Row>, limit: nat): seq<Row> {
    if rows == [] then []
    else (if rows[0].completion || Droppable(rows[1..]) < limit then [rows[0]] else []) + Newest(rows[1..], limit)
  }

  /** The deletion after each append. */
  function Truncate(rows: seq<Row>): seq<Row> {
    Newest(rows, MAX_RETAINED_SUFFIX)
  }

  /** How far back the table reaches for a history of this length. */
  function Window(history: seq<Entry>): nat {
    MAX_RETAINED_SUFFIX + if history != [] && history[|history| - 1].snapshot.state == Completed then 1 else 0
  }

  function Oldest(history: seq<Entry>): nat {
    if |history| <= Window(history) then 0 else |history| - Window(history)
  }

  /** What the store keeps of a history. */
  function Retained(history: seq<Entry>): seq<Row>
    requires |history| < U64_LIMIT
  {
    AllRows(history)[Oldest(history)..]
  }

  lemma {:induction false} DroppableCount(rows: seq<Row>)
    requires forall k :: 0 <= k < |rows| - 1 ==> !rows[k].completion
    ensures Droppable(rows) == |rows| - if rows != [] && rows[|rows| - 1].completion then 1 else 0
    decreases |rows|
  {
    if |rows| > 1 {
      DroppableCount(rows[1..]);
    } else if |rows| == 1 {
      assert rows[1..] == [];
    }
  }

  /** How many rows stay of a table whose only completion is the last row. */
  function Kept(rows: seq<Row>, limit: nat): nat {
    limit + if rows != [] && rows[|rows| - 1].completion then 1 else 0
  }

  lemma {:induction false} NewestKeepsAll(rows: seq<Row>, limit: nat)
    requires forall k :: 0 <= k < |rows| - 1 ==> !rows[k].completion
    requires |rows| <= Kept(rows, limit)
    ensures Newest(rows, limit) == rows
    decreases |rows|
  {
    if rows != [] {
      DroppableCount(rows[1..]);
      NewestKeepsAll(rows[1..], limit);
      assert rows == [rows[0]] + rows[1..];
    }
  }

  lemma NewestDropsFirst(rows: seq<Row>, limit: nat)
    requires forall k :: 0 <= k < |rows| - 1 ==> !rows[k].completion
    requires |rows| > Kept(rows, limit)
    ensures Newest(rows, limit) == Newest(rows[1..], limit)
  {
    DroppableCount(rows[1..]);
  }

  lemma KeptOfTail(rows: seq<Row>, limit: nat)
    requires |rows| > Kept(rows, limit)
    ensures Kept(rows[1..], limit) == Kept(rows, limit)
  {
    if |rows| > 1 {
      assert rows[1..][|rows| - 2] == rows[|rows| - 1];
    }
  }

  lemma NewestStep(rows: seq<Row>, limit: nat, kept: nat)
    requires forall k :: 0 <= k < |rows| - 1 ==> !rows[k].completion
    requires kept == Kept(rows, limit) < |rows|
    requires Newest(rows[1..], limit) == rows[1..][|rows| - 1 - kept..]
    ensures Newest(rows, limit) == rows[|rows| - kept..]
  {
    NewestDropsFirst(rows, limit);
    SuffixOfSuffix(rows, 1, |rows| - kept);
  }

  lemma {:induction false} NewestIsTail(rows: seq<Row>, limit: nat, kept: nat)
    requires forall k :: 0 <= k < |rows| - 1 ==> !rows[k].completion
    requires kept == Kept(rows, limit) <= |rows|
    ensures Newest(rows, limit) == rows[|rows| - kept..]
    decreases |rows|
  {
    if |rows| == kept {
      NewestKeepsAll(rows, limit);
    } else {
      KeptOfTail(rows, limit);
      NewestIsTail(rows[1..], limit, kept);
      NewestStep(rows, limit, kept);
    }
  }

  /** Deleting from a table whose only completion is the last row leaves a suffix. */
  lemma NewestIsSuffix(rows: seq<Row>, limit: nat)
    requires forall k :: 0 <= k < |rows| - 1 ==> !rows[k].completion
    ensures Newest(rows, limit) == if |rows| <= Kept(rows, limit) then rows else rows[|rows| - Kept(rows, limit)..]
  {
    if |rows| <= Kept(rows, limit) {
      NewestKeepsAll(rows, limit);
    } else {
      NewestIsTail(rows, limit, Kept(rows, limit));
    }
  }

  lemma KeptIsWindow(history: seq<Entry>, rows: seq<Row>, from: nat)
    requires |history| < U64_LIMIT && from < |history| && rows == AllRows(history)[from..]
    ensures Kept(rows, MAX_RETAINED_SUFFIX) == Window(history)
  {
    assert rows[|rows| - 1] == RowOf(|history|, history[|history| - 1]);
  }

  /** Truncating a table that reaches back far enough gives what is retained. */
  lemma TruncatedSuffix(history: seq<Entry>, rows: seq<Row>, from: nat)
    requires WellEnded(history) && from <= Oldest(history) && rows == AllRows(history)[from..]
    ensures Truncate(rows) == Retained(history)
  {
    if history != [] {
      NoEarlyCompletion(history, from);
      NewestIsSuffix(rows, MAX_RETAINED_SUFFIX);
      KeptIsWindow(history, rows, from);
      SuffixOfSuffix(AllRows(history), from, Oldest(history));
    }
  }

  lemma SuffixOfSuffix(rows: seq<Row>, from: nat, to: nat)
    requires from <= to <= |rows|
    ensures rows[from..][to - from..] == rows[to..]
  {
  }

  lemma AppendRow(history: seq<Entry>, entry: Entry)
    requires |history| + 1 < U64_LIMIT
    ensures Retained(history) + [RowOf(|history| + 1, entry)] == AllRows(history + [entry])[Oldest(history)..]
  {
    assert AllRows(history + [entry]) == AllRows(history) + [RowOf(|history| + 1, entry)];
  }

  /**
   * Appending to the truncated table and truncating again gives what truncating the full table
   * would: deletion never loses a row a later deletion would have kept.
   */
  lemma RetainedAppend(history: seq<Entry>, entry: Entry)
    requires WellEnded(history + [entry])
    requires history != [] ==> !history[|history| - 1].snapshot.state.Terminal()
    ensures Truncate(Retained(history) + [RowOf(|history| + 1, entry)]) == Retained(history + [entry])
  {
    AppendRow(history, entry);
    TruncatedSuffix(history + [entry], AllRows(history + [entry])[Oldest(history)..], Oldest(history));
  }

  /** A history that has ended has no continuation. */
  lemma EndedForGood(history: seq<Entry>, entry: Entry)
    requires history != [] && history[|history| - 1].snapshot.state.Terminal()
    ensures !WellEnded(history + [entry])
  {
    var last := |history| - 1;
    assert (history + [entry])[last] == history[last];
  }

  lemma NoEarlyCompletion(history: seq<Entry>, from: nat)
    requires WellEnded(history) && from <= |history|
    ensures var rows := AllRows(history)[from..]; forall k :: 0 <= k < |rows| - 1 ==> !rows[k].completion
  {
    forall k | from <= k < |history| - 1 ensures !AllRows(history)[k].completion {
      assert !history[k].snapshot.state.Terminal();
    }
  }

  /** Truncating the full table at once gives the same table. */
  lemma RetainedIsTruncated(history: seq<Entry>)
    requires WellEnded(history)
    ensures Retained(history) == Truncate(AllRows(history))
  {
    assert AllRows(history)[0..] == AllRows(history);
    TruncatedSuffix(history, AllRows(history), 0);
  }

  // Replay.

  datatype Event = Event(revision: nat, kind: string, payload: nat)

  datatype Replay = Events(snapshotRevision: nat, events: seq<Event>) | ResyncRequired(revision: nat, snapshot: Snapshot)

  function EventAt(history: seq<Entry>, k: nat): Event
    requires k < |history|
  {
    Event(k + 1, history[k].kind, history[k].payload)
  }

  /** The events after revision `last`, from the full history. */
  function EventsAfter(history: seq<Entry>, last: nat): seq<Event>
    requires last <= |history|
  {
    seq(|history| - last, k requires 0 <= k < |history| - last => EventAt(history, last + k))
  }

  /** The answer to a client that has seen everything up to `last`. */
  function Answer(history: seq<Entry>, last: nat): Replay
    requires last <= |history| && history != []
  {
    if |history| - last <= Window(history) then Events(|history|, EventsAfter(history, last))
    else ResyncRequired(|history|, history[|history| - 1].snapshot)
  }

  /**
   * What a client that has seen everything up to `last` is to be told: each event since, as it was appended and
   * with its revision, if these are at most 64 (65 once the job has completed); otherwise the present snapshot.
   */
  ghost predicate Replays(history: seq<Entry>, last: nat, answer: Replay) {
    && last <= |history| && history != []
    && var latest := history[|history| - 1].snapshot;
       if |history| - last <= (if latest.state == Completed then 65 else 64) then
         && answer.Events? && answer.snapshotRevision == |history| && |answer.events| == |history| - last
         && forall k :: 0 <= k < |history| - last ==>
              && answer.events[k] == Event(last + k + 1, history[last + k].kind, history[last + k].payload)
              && (answer.events[k].kind == "job.completed" <==> history[last + k].snapshot.state == Completed)
              && (answer.events[k].kind == "job.failed" <==> history[last + k].snapshot.state == Failed)
       else answer == ResyncRequired(|history|, latest)
  }

  lemma AnswerReplays(history: seq<Entry>, last: nat)
    requires last <= |history| && history != []
    requires forall k :: 0 <= k < |history| ==> Telling(history[k])
    ensures Replays(history, last, Answer(history, last))
  {
    if |history| - last <= Window(history) {
      forall k | 0 <= k < |history| - last ensures EventsAfter(history, last)[k] == EventAt(history, last + k) {
      }
    }
  }

  /** The rows a replay selects: revisions after `last`, as blobs compare, in order and at most 66. */
  function Newer(rows: seq<Row>, after: seq<Byte>): seq<Row> {
    if rows == [] then []
    else (if LexLess(after, rows[0].revision) then [rows[0]] else []) + Newer(rows[1..], after)
  }

  lemma {:induction false} NewerIsSuffix(rows: seq<Row>, first: nat, last: nat)
    requires first + |rows| <= U64_LIMIT && last < U64_LIMIT
    requires forall k :: 0 <= k < |rows| ==> rows[k].revision == EncodeRevision(first + k)
    ensures Newer(rows, EncodeRevision(last))
            == if last < first then rows else if last - first + 1 >= |rows| then [] else rows[last - first + 1..]
    decreases |rows|
  {
    if rows != [] {
      NewerIsSuffix(rows[1..], first + 1, last);
      RevisionBlobs(last, first);
      assert rows == [rows[0]] + rows[1..];
    }
  }
}
