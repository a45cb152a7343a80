/**
 * A client that follows a job over any number of connections, each of which may break after any
 * number of frames, sending the id of the last frame it received (Last-Event-ID, section 9.2 of
 * the HTML Living Standard).
 */
module EventClient {
  import opened Prelude
  import opened EventLog

  /** A frame as received, with the revision the job had when it was sent. */
  datatype Frame =
    | EventFrame(id: nat, event: Event, current: nat)
    | ResyncFrame(id: nat, snapshot: Snapshot, current: nat)

  /** One job and one client; `log` is everything the client has received. */
  datatype World = World(history: seq<Entry>, last: nat, log: seq<Frame>)

  datatype Happening = Appended(entry: Entry) | Connected(received: nat)

  /** The frames one connection sends. */
  function Frames(history: seq<Entry>, last: nat): seq<Frame>
    requires last <= |history| && history != []
  {
    match Answer(history, last)
    case Events(_, events) =>
      seq(|events|, k requires 0 <= k < |events| => EventFrame(events[k].revision, events[k], |history|))
    case ResyncRequired(revision, snapshot) => [ResyncFrame(revision, snapshot, |history|)]
  }

  /** Inside the window every frame is the next event. */
  lemma EventFramesAre(history: seq<Entry>, last: nat, k: nat)
    requires last <= |history| && history != [] && |history| - last <= Window(history)
    requires k < |history| - last
    ensures |Frames(history, last)| == |history| - last
    ensures Frames(history, last)[k] == EventFrame(last + k + 1, EventAt(history, last + k), |history|)
  {
    assert EventsAfter(history, last)[k] == EventAt(history, last + k);
  }

  /** Every frame is the next event, unless the client is out of the window and gets one resync. */
  lemma FramesAre(history: seq<Entry>, last: nat)
    requires last <= |history| && history != []
    ensures var frames := Frames(history, last);
            if |history| - last <= Window(history)
            then |frames| == |history| - last
                 && forall k :: 0 <= k < |frames| ==>
                      frames[k] == EventFrame(last + k + 1, EventAt(history, last + k), |history|)
            else last < |history| && frames == [ResyncFrame(|history|, history[|history| - 1].snapshot, |history|)]
  {
    if |history| - last <= Window(history) {
      assert |Frames(history, last)| == |EventsAfter(history, last)|;
      forall k | 0 <= k < |history| - last
        ensures Frames(history, last)[k] == EventFrame(last + k + 1, EventAt(history, last + k), |history|)
      {
        EventFramesAre(history, last, k);
      }
    }
  }

  /** A job that has ended takes no more events; revisions are 64-bit. */
  predicate MayAppend(history: seq<Entry>) {
    && |history| + 1 < U64_LIMIT
    && (history != [] ==> !history[|history| - 1].snapshot.state.Terminal())
  }

  function Next(w: World, happening: Happening): World {
    match happening
    case Appended(entry) => if MayAppend(w.history) then w.(history := w.history + [entry]) else w
    case Connected(received) =>
      if w.history == [] || w.last > |w.history| then w
      else
        var frames := Frames(w.history, w.last);
        var got := if received < |frames| then frames[..received] else frames;
        World(w.history, if got == [] then w.last else got[|got| - 1].id, w.log + got)
  }

  function Run(happenings: seq<Happening>): World {
    if happenings == [] then World([], 0, [])
    else Next(Run(happenings[..|happenings| - 1]), happenings[|happenings| - 1])
  }

  /** Frame k tells the truth: an event as it happened, or a resync at the revision of its time. */
  predicate FrameTrue(w: World, k: nat)
    requires k < |w.log|
  {
    match w.log[k]
    case EventFrame(id, event, current) => 1 <= id <= current <= |w.history| && event == EventAt(w.history, id - 1)
    case ResyncFrame(id, snapshot, current) =>
      1 <= id == current <= |w.history| && snapshot == w.history[id - 1].snapshot
  }

  /** Frame k continues the previous one, or is a resync that closes the gap. */
  predicate NoSilentGap(w: World, k: nat)
    requires k < |w.log|
  {
    var previous := if k == 0 then 0 else w.log[k - 1].id;
    previous < w.log[k].id && (w.log[k].EventFrame? ==> w.log[k].id == previous + 1)
  }

  ghost predicate Faithful(w: World) {
    && w.last == (if w.log == [] then 0 else w.log[|w.log| - 1].id)
    && w.last <= |w.history|
    && forall k :: 0 <= k < |w.log| ==> FrameTrue(w, k) && NoSilentGap(w, k)
  }

  lemma AppendKeepsFaithful(w: World, entry: Entry)
    requires Faithful(w)
    ensures Faithful(w.(history := w.history + [entry]))
  {
    var z := w.(history := w.history + [entry]);
    forall k | 0 <= k < |z.log| ensures FrameTrue(z, k) && NoSilentGap(z, k) {
      assert FrameTrue(w, k) && NoSilentGap(w, k);
    }
  }

  lemma ConnectKeepsFaithful(w: World, received: nat)
    requires Faithful(w) && w.history != []
    ensures Faithful(Next(w, Connected(received)))
  {
    var z := Next(w, Connected(received));
    var frames := Frames(w.history, w.last);
    FramesAre(w.history, w.last);
    forall k | 0 <= k < |z.log| ensures FrameTrue(z, k) && NoSilentGap(z, k) {
      if k < |w.log| {
        assert z.log[k] == w.log[k];
        assert FrameTrue(w, k) && NoSilentGap(w, k);
      } else {
        assert z.log[k] == frames[k - |w.log|];
      }
    }
  }

  /**
   * In every run the ids a client receives increase strictly, every event is the true one for its id,
   * and whenever an id is skipped the frame is a resync carrying the revision current at that time.
   */
  lemma {:induction false} RunIsFaithful(happenings: seq<Happening>)
    ensures Faithful(Run(happenings))
    decreases |happenings|
  {
    if happenings != [] {
      var n := |happenings| - 1;
      RunIsFaithful(happenings[..n]);
      var w := Run(happenings[..n]);
      match happenings[n]
      case Appended(entry) => if MayAppend(w.history) { AppendKeepsFaithful(w, entry); }
      case Connected(received) => if w.history != [] { ConnectKeepsFaithful(w, received); }
    }
  }

  lemma StrictlyIncreasing(happenings: seq<Happening>, i: nat, j: nat)
    requires i < j < |Run(happenings).log|
    ensures Run(happenings).log[i].id < Run(happenings).log[j].id
    decreases j
  {
    RunIsFaithful(happenings);
    assert NoSilentGap(Run(happenings), j);
    if i + 1 < j {
      StrictlyIncreasing(happenings, i, j - 1);
    }
  }

  /** A connection cut after some frames has brought exactly these, and lost nothing the client had. */
  lemma CutConnection(w: World, received: nat)
    requires Faithful(w) && w.history != []
    ensures var z := Next(w, Connected(received));
            var missing := |w.history| - w.last;
            var sent := if missing <= (if w.history[|w.history| - 1].snapshot.state == Completed then 65 else 64) then missing else 1;
            && z.history == w.history
            && |z.log| == |w.log| + (if received < sent then received else sent)
            && z.log[..|w.log|] == w.log
            && forall k :: |w.log| <= k < |z.log| ==> z.log[k].current == |w.history|
  {
    FramesAre(w.history, w.last);
    var frames := Frames(w.history, w.last);
    var z := Next(w, Connected(received));
    forall k | |w.log| <= k < |z.log| ensures z.log[k].current == |w.history| {
      assert z.log[k] == frames[k - |w.log|];
    }
  }

  /** A job takes an event as long as it is active and has a revision to spare; the client does not notice. */
  lemma AppendTaken(w: World, entry: Entry)
    ensures var z := Next(w, Appended(entry));
            && z.log == w.log && z.last == w.last
            && (z.history == w.history + [entry] <==>
                  && |w.history| + 1 < 0x1_0000_0000_0000_0000
                  && (w.history == [] || w.history[|w.history| - 1].snapshot.state.Active?))
            && (z.history == w.history + [entry] || z.history == w.history)
  {
    assert |w.history + [entry]| == |w.history| + 1;
  }

  /** A connection that is not cut leaves the client at the current revision, whatever it had missed. */
  lemma FullConnectionCatchesUp(w: World, received: nat)
    requires Faithful(w) && w.history != []
    requires received >= |Frames(w.history, w.last)|
    ensures Next(w, Connected(received)).last == |w.history|
  {
    FramesAre(w.history, w.last);
  }

  /** The client is never told that the id it sends is from the future. */
  lemma NeverFutureRevision(happenings: seq<Happening>)
    ensures Run(happenings).last <= |Run(happenings).history|
  {
    RunIsFaithful(happenings);
  }
}
