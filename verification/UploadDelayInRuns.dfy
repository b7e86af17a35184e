/** The bound on the upload delay in every interleaving: messages may be put at any moment of a pass, also
    while it drains the queue. */
module UploadDelayInRuns {
  import opened PipesChannel
  import opened PipesProtocol
  import opened UploadDelay

  /** The clock readings that the upload thread takes in a run, one for each pass that it begins. */
  ghost function Readings(s: State, acts: seq<Action>, interval: real): seq<int>
    decreases |acts|
  {
    if acts == [] || !Enabled(s, acts[0]) then []
    else
      (if acts[0].UploaderStep? && s.pc == ReadClock then [acts[0].clock] else [])
      + Readings(Next(s, acts[0], interval), acts[1..], interval)
  }

  /** The first `m` messages have reached the blob store. */
  ghost predicate Uploaded(s: State, m: nat) {
    m <= |Delivered(s.ch.chunks)|
  }

  /** The pass under way has been, or will be, found due with respect to `last`. */
  predicate PassDue(s: State, last: int, interval: real) {
    || s.pc in {FlushTest, FlushGet, Upload}
    || (s.pc in {TestEmpty, TestExit, TestEvent, TestAge} && Due(s.now, last, interval))
  }

  /** Nothing was uploaded since `last`, and a batch about to be uploaded holds the first `m` messages. */
  ghost predicate Pending(s: State, m: nat, last: int) {
    && Inv(s) && m <= |s.put| && s.ch.lastUpload == last
    && (s.pc == Upload ==> m <= |Delivered(s.ch.chunks)| + |s.items|)
  }

  /** An upload delivers all of its batch, and no step takes anything back. */
  lemma StepDelivers(s: State, a: Action, interval: real)
    requires Inv(s) && Enabled(s, a)
    ensures |Delivered(s.ch.chunks)| <= |Delivered(Next(s, a, interval).ch.chunks)|
    ensures a.UploaderStep? && s.pc == Upload ==>
      |Delivered(Next(s, a, interval).ch.chunks)| == |Delivered(s.ch.chunks)| + |s.items|
  {
    hide Delivered;
    if a.UploaderStep? && s.pc == Upload {
      BatchDelivered(s.ch, s.items, s.now);
    }
  }

  /** While the session is open, a step leaves the first `m` messages pending or uploads them; and a pass
      that is due goes on to upload them. */
  lemma StepKeepsPending(s: State, a: Action, interval: real, m: nat, last: int)
    requires Pending(s, m, last) && Enabled(s, a) && !Next(s, a, interval).event
    ensures Uploaded(Next(s, a, interval), m) || Pending(Next(s, a, interval), m, last)
    ensures PassDue(s, last, interval) ==>
      Uploaded(Next(s, a, interval), m) || PassDue(Next(s, a, interval), last, interval)
    ensures a.UploaderStep? && s.pc == ReadClock && Due(a.clock, last, interval) ==>
      PassDue(Next(s, a, interval), last, interval)
  {
    hide Delivered, Due, Numbered;
    StepKeepsInv(s, a, interval);
    StepDelivers(s, a, interval);
  }

  lemma {:induction false} UploadedStays(s: State, acts: seq<Action>, t: State, interval: real, m: nat)
    requires Inv(s) && Run(s, acts, t, interval) && Uploaded(s, m)
    ensures Uploaded(t, m)
    decreases |acts|
  {
    if acts != [] {
      StepDelivers(s, acts[0], interval);
      StepKeepsInv(s, acts[0], interval);
      UploadedStays(Next(s, acts[0], interval), acts[1..], t, interval, m);
    }
  }

  lemma {:induction false} EventStays(s: State, acts: seq<Action>, t: State, interval: real)
    requires Run(s, acts, t, interval) && s.event
    ensures t.event
    decreases |acts|
  {
    if acts != [] {
      EventStays(Next(s, acts[0], interval), acts[1..], t, interval);
    }
  }

  /** If at the end of a pass the first `m` messages are still not uploaded, then no pass was due. */
  lemma {:induction false} NotUploadedNeverDue(
      s: State, acts: seq<Action>, t: State, interval: real, m: nat, last: int)
    requires Pending(s, m, last) && Run(s, acts, t, interval)
    requires t.pc == ReadClock && !t.event && !Uploaded(t, m)
    ensures !PassDue(s, last, interval) && NeverDue(Readings(s, acts, interval), last, interval)
    decreases |acts|
  {
    if acts != [] {
      hide Inv, Due, PassDue, Next, Enabled;
      var (a, n) := (acts[0], Next(s, acts[0], interval));
      OpenBefore(s, acts, t, interval);
      StepKeepsPending(s, a, interval, m, last);
      StepKeepsInv(s, a, interval);
      if Uploaded(n, m) {
        UploadedStays(n, acts[1..], t, interval, m);
      }
      NotUploadedNeverDue(n, acts[1..], t, interval, m, last);
    }
  }

  lemma {:induction false} OpenBefore(s: State, acts: seq<Action>, t: State, interval: real)
    requires Run(s, acts, t, interval) && !t.event && acts != []
    ensures Enabled(s, acts[0]) && !Next(s, acts[0], interval).event
  {
    if Next(s, acts[0], interval).event {
      EventStays(Next(s, acts[0], interval), acts[1..], t, interval);
    }
  }

  /** While the ticks are safe and the session is open, every message put before a pass has reached the blob
      store after `Floor(interval)` + 2 passes from that one on, whatever the other threads do meanwhile. */
  lemma {:induction false} DelayBoundedInEveryRun(s: State, acts: seq<Action>, t: State, interval: real)
    requires 0.0 <= interval && Reachable(s, interval) && Run(s, acts, t, interval)
    requires s.pc == ReadClock && t.pc == ReadClock && !t.event
    requires |Readings(s, acts, interval)| >= interval.Floor + 2
    requires Ticks(Readings(s, acts, interval), LongestSafeTick(interval))
    ensures s.put <= Delivered(t.ch.chunks)
  {
    hide Delivered, Due, Readings, Run, PassDue;
    ReachableInv(s, interval);
    RunKeepsInv(s, acts, t, interval);
    var readings := Readings(s, acts, interval);
    DueInTime(readings, s.ch.lastUpload, interval, 0);
    if !Uploaded(t, |s.put|) {
      NotUploadedNeverDue(s, acts, t, interval, |s.put|, s.ch.lastUpload);
      assert false;
    }
    PutOnlyGrows(s, acts, t, interval);
    FirstPart(s.put, t.put, Delivered(t.ch.chunks), t.items, t.ch.queue);
  }

  lemma FirstPart(early: seq<Line>, put: seq<Line>, delivered: seq<string>, items: seq<Line>, queue: seq<Line>)
    requires early <= put && delivered + items + queue == put && |early| <= |delivered|
    ensures early <= delivered
  {
    assert put[..|early|] == (delivered + items + queue)[..|early|] == delivered[..|early|];
  }

  lemma {:induction false} PutOnlyGrows(s: State, acts: seq<Action>, t: State, interval: real)
    requires Run(s, acts, t, interval)
    ensures s.put <= t.put
    decreases |acts|
  {
    if acts != [] {
      PutOnlyGrows(Next(s, acts[0], interval), acts[1..], t, interval);
    }
  }

  // ----- an upload starts the interval again -----

  /** The last upload was at `now`, and the pass under way, if any, has not been found due. */
  predicate Quiet(s: State, now: int, interval: real) {
    && s.ch.lastUpload == now
    && s.pc !in {FlushTest, FlushGet, Upload}
    && (s.pc in {TestEmpty, TestExit, TestEvent, TestAge} ==> !Due(s.now, now, interval))
  }

  lemma StepStaysQuiet(s: State, a: Action, interval: real, now: int)
    requires Quiet(s, now, interval) && Enabled(s, a) && !Next(s, a, interval).event
    requires a.UploaderStep? && s.pc == ReadClock ==> !Due(a.clock, now, interval)
    ensures Quiet(Next(s, a, interval), now, interval) && Next(s, a, interval).ch.chunks == s.ch.chunks
  {
    hide Due, UploadBatch;
  }

  lemma {:induction false} RunStaysQuiet(s: State, acts: seq<Action>, t: State, interval: real, now: int)
    requires Quiet(s, now, interval) && Run(s, acts, t, interval) && !t.event
    requires NeverDue(Readings(s, acts, interval), now, interval)
    ensures t.ch.chunks == s.ch.chunks
    decreases |acts|
  {
    if acts != [] {
      hide Quiet, Due, Next, Enabled;
      var rest := Readings(Next(s, acts[0], interval), acts[1..], interval);
      var readings := Readings(s, acts, interval);
      OpenBefore(s, acts, t, interval);
      var first := if acts[0].UploaderStep? && s.pc == ReadClock then [acts[0].clock] else [];
      assert readings == first + rest;
      if first != [] {
        assert readings[0] == acts[0].clock;
      }
      forall i | 0 <= i < |rest| ensures !Due(rest[i], now, interval) {
        assert rest[i] == readings[|first| + i];
      }
      StepStaysQuiet(s, acts[0], interval, now);
      RunStaysQuiet(Next(s, acts[0], interval), acts[1..], t, interval, now);
    }
  }

  /** In every interleaving of an open session: once a step has uploaded a chunk, in a pass that read the
      clock at `s.now`, no chunk follows while all further readings lie within the interval after that. */
  lemma {:induction false} UploadRestartsIntervalInRuns(s: State, acts: seq<Action>, t: State, interval: real)
    requires 0.0 <= interval && s.pc == Upload
    requires var n := Next(s, UploaderStep(s.now), interval);
      n.ch.chunks != s.ch.chunks && Run(n, acts, t, interval) && !t.event
      && forall i :: 0 <= i < |Readings(n, acts, interval)| ==>
           0 <= Readings(n, acts, interval)[i] - s.now < (interval.Floor + 1) * MICROS_PER_SECOND
    ensures t.ch.chunks == Next(s, UploaderStep(s.now), interval).ch.chunks
  {
    var n := Next(s, UploaderStep(s.now), interval);
    var readings := Readings(n, acts, interval);
    forall i | 0 <= i < |readings| ensures !Due(readings[i], s.now, interval) {
      TooEarly(readings[i], s.now, interval);
    }
    RunStaysQuiet(n, acts, t, interval, s.now);
  }
}
