/** The threads of one Pipes session, interleaved at every shared access: the user's thread, the
    stdout and stderr capture threads, and the upload thread. Only the order of these accesses is
    left open; each single access of the queue or of the session event is atomic. */
module PipesProtocol {
  import opened PipesChannel

  /** Where the upload thread is. `TestExit` has seen an empty queue and is about to read the event
      for the exit test; `TestEvent` is about to read it for the flush test. */
  datatype Pc = ReadClock | TestEmpty | TestExit | TestEvent | TestAge | FlushTest | FlushGet | Upload | Sleep | Done

  /** Where the user's thread is: before `close`, leaving the capture contexts, waiting for the
      upload thread, or back from `close`. */
  datatype User = Running | Joining | Waiting | Returned

  /** `put` logs every message put into the queue. `looked` is its length when the upload thread last
      read `empty()` for the exit test, and `lookedLate` says whether the event was already set then. */
  datatype State = State(
    ch: Channel, items: seq<Line>, now: int, pc: Pc,
    user: User, capturing: set<nat>, event: bool,
    put: seq<Line>, looked: nat, lookedLate: bool)

  datatype Action =
    | UserPut(message: Line)
    | CapturePut(thread: nat, message: Line)
    | CaptureStop(thread: nat)
    | Close(message: Line)
    | SetEvent
    | ReturnFromClose
    | UploaderStep(clock: int)

  function Init(start: int, capturing: set<nat>): State {
    State(Channel([], [], 1, start), [], start, ReadClock, Running, capturing, false, [], 0, false)
  }

  predicate Enabled(s: State, a: Action) {
    match a
    case UserPut(_) => s.user == Running
    case CapturePut(t, _) => t in s.capturing
    case CaptureStop(t) => t in s.capturing
    case Close(_) => s.user == Running
    case SetEvent => s.user == Joining && s.capturing == {}
    case ReturnFromClose => s.user == Waiting && s.pc == Done
    case UploaderStep(_) => s.pc != Done && (s.pc == FlushGet ==> s.ch.queue != [])
  }

  function Put(s: State, message: Line): State {
    s.(ch := s.ch.(queue := s.ch.queue + [message]), put := s.put + [message])
  }

  /** One shared access of the upload thread, with the local work up to the next one. */
  function Uploader(s: State, clock: int, interval: real): State
    requires Enabled(s, UploaderStep(clock))
  {
    match s.pc
    case ReadClock => s.(now := clock, pc := TestEmpty)
    case TestEmpty =>
      s.(looked := |s.put|, lookedLate := s.event, pc := if s.ch.queue == [] then TestExit else TestEvent)
    case TestExit => s.(pc := if s.event then Done else TestEvent)
    case TestEvent => s.(pc := if s.event then FlushTest else TestAge)
    case TestAge => s.(pc := if Due(s.now, s.ch.lastUpload, interval) then FlushTest else Sleep)
    case FlushTest => s.(pc := if s.ch.queue == [] then Upload else FlushGet)
    case FlushGet =>
      s.(ch := s.ch.(queue := s.ch.queue[1..]), items := s.items + [s.ch.queue[0]], pc := FlushTest)
    case Upload => s.(ch := UploadBatch(s.ch, s.items, s.now), items := [], pc := Sleep)
    case Sleep => s.(pc := ReadClock)
  }

  function Next(s: State, a: Action, interval: real): State
    requires Enabled(s, a)
  {
    match a
    case UserPut(m) => Put(s, m)
    case CapturePut(_, m) => Put(s, m)
    case CaptureStop(t) => s.(capturing := s.capturing - {t})
    case Close(m) => Put(s, m).(user := Joining)
    case SetEvent => s.(event := true, user := Waiting)
    case ReturnFromClose => s.(user := Returned)
    case UploaderStep(clock) => Uploader(s, clock, interval)
  }

  ghost predicate Run(s: State, acts: seq<Action>, t: State, interval: real)
    decreases |acts|
  {
    if acts == [] then s == t
    else Enabled(s, acts[0]) && Run(Next(s, acts[0], interval), acts[1..], t, interval)
  }

  ghost predicate Reachable(s: State, interval: real) {
    exists start: int, capturing: set<nat>, acts: seq<Action> :: Run(Init(start, capturing), acts, s, interval)
  }

  // ----- what every step of every thread keeps -----

  ghost predicate Conserved(s: State) {
    && Delivered(s.ch.chunks) + s.items + s.ch.queue == s.put
    && Numbered(s.ch)
  }

  ghost predicate Inv(s: State) {
    && Conserved(s)
    && (s.pc in {ReadClock, TestEmpty, TestExit, TestEvent, TestAge, Sleep, Done} ==> s.items == [])
    && (s.pc == FlushGet ==> s.ch.queue != [])
    && s.looked <= |s.put|
    // between a read that found the queue empty and the exit test, the queue holds just what came since
    && (s.pc in {TestExit, Done} ==> s.ch.queue == s.put[s.looked..])
    && (s.event <==> s.user in {Waiting, Returned})
    && (s.event ==> s.capturing == {})
    && (s.pc == Done ==> s.event)
    && (s.user == Returned ==> s.pc == Done)
    && (s.lookedLate ==> s.event && s.looked == |s.put|)
  }

  lemma PutKeepsInv(s: State, m: Line)
    requires Inv(s) && !s.event
    ensures Inv(Put(s, m))
  {
    hide Delivered;
    assert Delivered(s.ch.chunks) + s.items + (s.ch.queue + [m]) == Delivered(s.ch.chunks) + s.items + s.ch.queue + [m];
    assert (s.put + [m])[s.looked..] == s.put[s.looked..] + [m];
  }

  lemma GetKeepsInv(s: State, clock: int, interval: real)
    requires Inv(s) && s.pc == FlushGet
    ensures Inv(Uploader(s, clock, interval))
  {
    hide Delivered, UploadBatch, Due;
    var (d, i, q) := (Delivered(s.ch.chunks), s.items, s.ch.queue);
    assert d + (i + [q[0]]) + q[1..] == d + i + q;
  }

  lemma UploadKeepsInv(s: State, clock: int, interval: real)
    requires Inv(s) && s.pc == Upload
    ensures Inv(Uploader(s, clock, interval))
  {
    hide Delivered, Numbered, Due, UploadBatch;
    BatchDelivered(s.ch, s.items, s.now);
    var d := Delivered(s.ch.chunks) + s.items;
    assert d + [] + s.ch.queue == d + s.ch.queue;
  }

  lemma UploaderKeepsInv(s: State, clock: int, interval: real)
    requires Inv(s) && Enabled(s, UploaderStep(clock))
    ensures Inv(Uploader(s, clock, interval))
  {
    match s.pc
    case TestEmpty => assert s.put[|s.put|..] == [];
    case FlushGet => GetKeepsInv(s, clock, interval);
    case Upload => UploadKeepsInv(s, clock, interval);
    case _ =>
  }

  lemma StepKeepsInv(s: State, a: Action, interval: real)
    requires Inv(s) && Enabled(s, a)
    ensures Inv(Next(s, a, interval))
  {
    match a
    case UserPut(m) => PutKeepsInv(s, m);
    case CapturePut(_, m) => PutKeepsInv(s, m);
    case Close(m) => PutKeepsInv(s, m);
    case UploaderStep(clock) => UploaderKeepsInv(s, clock, interval);
    case _ =>
  }

  lemma {:induction false} RunKeepsInv(s: State, acts: seq<Action>, t: State, interval: real)
    requires Inv(s) && Run(s, acts, t, interval)
    ensures Inv(t)
    decreases |acts|
  {
    if acts != [] {
      StepKeepsInv(s, acts[0], interval);
      RunKeepsInv(Next(s, acts[0], interval), acts[1..], t, interval);
    }
  }

  lemma ReachableInv(s: State, interval: real)
    requires Reachable(s, interval)
    ensures Inv(s)
  {
    var start: int, capturing: set<nat>, acts: seq<Action> :| Run(Init(start, capturing), acts, s, interval);
    RunKeepsInv(Init(start, capturing), acts, s, interval);
  }

  /** In every interleaving no message is lost, duplicated or reordered on its way from the queue to
      the chunks, the indices are 1 .. counter - 1, and the drain never blocks on an empty queue. */
  lemma NothingLostInTransit(s: State, interval: real)
    requires Reachable(s, interval)
    ensures Delivered(s.ch.chunks) + s.items + s.ch.queue == s.put
    ensures Numbered(s.ch)
    ensures s.pc != Done ==> Enabled(s, UploaderStep(s.now))
  {
    ReachableInv(s, interval);
  }

  // ----- the messages put, told from the actions alone -----

  /** What the actions put into the queue, in order: messages of the user's thread and of the capture
      threads, and the "closed" message. */
  function Messages(acts: seq<Action>): seq<Line> {
    if acts == [] then []
    else
      (match acts[0]
       case UserPut(m) => [m]
       case CapturePut(_, m) => [m]
       case Close(m) => [m]
       case _ => [])
      + Messages(acts[1..])
  }

  /** In every run the log of put messages grows by just those of the actions, a capture thread is there until it
      stops, and the event is set by `close` alone. */
  lemma {:induction false} RunIsHistory(s: State, acts: seq<Action>, t: State, interval: real)
    requires Run(s, acts, t, interval)
    ensures t.put == s.put + Messages(acts)
    ensures forall thread :: thread in t.capturing <==> thread in s.capturing && CaptureStop(thread) !in acts
    ensures t.event <==> s.event || SetEvent in acts
    decreases |acts|
  {
    hide Next, Enabled;
    if acts == [] {
      assert s.put + [] == s.put;
    } else {
      var (a, n) := (acts[0], Next(s, acts[0], interval));
      assert acts == [a] + acts[1..];
      StepIsHistory(s, a, interval);
      assert [a][1..] == [];
      RunIsHistory(n, acts[1..], t, interval);
    }
  }

  lemma StepIsHistory(s: State, a: Action, interval: real)
    requires Enabled(s, a)
    ensures Next(s, a, interval).put == s.put + Messages([a])
    ensures forall thread ::
      thread in Next(s, a, interval).capturing <==> thread in s.capturing && a != CaptureStop(thread)
    ensures Next(s, a, interval).event <==> s.event || a == SetEvent
  {
    hide Due, UploadBatch;
    assert [a][1..] == [] && Messages([]) == [];
  }

  /** From the start of a session: what was uploaded, what is being drained and what is queued are, in this
      order, exactly the messages of the actions; and `close` sets the event when, and only when, every
      capture thread has stopped. */
  lemma {:induction false} DeliveredIsHistory(
      start: int, capturing: set<nat>, acts: seq<Action>, s: State, interval: real)
    requires Run(Init(start, capturing), acts, s, interval)
    ensures Delivered(s.ch.chunks) + s.items + s.ch.queue == Messages(acts)
    ensures s.user == Joining ==>
      (Enabled(s, SetEvent) <==> forall thread :: thread in capturing ==> CaptureStop(thread) in acts)
  {
    assert Reachable(s, interval);
    NothingLostInTransit(s, interval);
    RunIsHistory(Init(start, capturing), acts, s, interval);
    assert [] + Messages(acts) == Messages(acts);
  }

  // ----- shutdown -----

  /** What `close` leaves behind when it returns: exactly the messages put after the upload thread
      last read `empty()`. So everything was uploaded if and only if nothing was put since then. */
  lemma DeliveredOnReturn(s: State, interval: real)
    requires Reachable(s, interval) && s.user == Returned
    ensures s.looked <= |s.put| && Delivered(s.ch.chunks) == s.put[..s.looked]
    ensures s.items == [] && s.ch.queue == s.put[s.looked..]
    ensures Delivered(s.ch.chunks) == s.put <==> s.looked == |s.put|
  {
    ReachableInv(s, interval);
    assert s.put == s.put[..s.looked] + s.put[s.looked..];
    assert |Delivered(s.ch.chunks)| == s.looked;
    assert Delivered(s.ch.chunks) == (Delivered(s.ch.chunks) + s.ch.queue)[..s.looked];
  }

  /** The upload thread has found the queue empty before, and something has been put since. */
  predicate LeavesSomething(s: State) {
    s.pc in {TestExit, Done} && s.ch.queue != []
  }

  lemma StepKeepsLeaving(s: State, a: Action, interval: real)
    requires Inv(s) && s.event && Enabled(s, a)
    ensures Next(s, a, interval).event && (LeavesSomething(Next(s, a, interval)) <==> LeavesSomething(s))
  {
    hide Delivered, Due, UploadBatch;
  }

  /** Once the event is set it is settled whether the upload thread leaves something behind. */
  lemma {:induction false} RunKeepsLeaving(s: State, acts: seq<Action>, t: State, interval: real)
    requires Inv(s) && s.event && Run(s, acts, t, interval)
    ensures LeavesSomething(t) <==> LeavesSomething(s)
    decreases |acts|
  {
    if acts != [] {
      StepKeepsInv(s, acts[0], interval);
      StepKeepsLeaving(s, acts[0], interval);
      RunKeepsLeaving(Next(s, acts[0], interval), acts[1..], t, interval);
    }
  }

  /** The moment at which the event is set decides: `close` delivers every message if and only if the upload
      thread does not stand, at that moment, before the second half of its exit test with a message queued
      since the first half. In every other state of the session nothing is lost, whatever the schedule. */
  lemma {:induction false} DeliveredIffNotLeaving(s: State, acts: seq<Action>, t: State, interval: real)
    requires Reachable(s, interval) && Enabled(s, SetEvent)
    requires Run(Next(s, SetEvent, interval), acts, t, interval) && t.user == Returned
    ensures Delivered(t.ch.chunks) == t.put <==> !(s.pc == TestExit && s.ch.queue != [])
  {
    var n := Next(s, SetEvent, interval);
    ReachableInv(s, interval);
    StepKeepsInv(s, SetEvent, interval);
    RunKeepsInv(n, acts, t, interval);
    RunKeepsLeaving(n, acts, t, interval);
    var delivered := Delivered(t.ch.chunks);
    assert delivered + [] + t.ch.queue == delivered + t.ch.queue == t.put;
    assert |delivered| + |t.ch.queue| == |t.put|;
    assert t.ch.queue == [] ==> delivered + t.ch.queue == delivered;
  }

  /** When the upload thread reads the queue at all once the session event is set, nothing is lost. */
  lemma LateLookDeliversAll(s: State, interval: real)
    requires Reachable(s, interval) && s.user == Returned && s.lookedLate
    ensures Delivered(s.ch.chunks) == s.put
  {
    ReachableInv(s, interval);
    DeliveredOnReturn(s, interval);
  }

  /** The exit test reads the queue and then the event, and the two reads are not one atomic step. If
      `close` runs in between, the upload thread leaves with the "closed" message still queued. */
  lemma ExitTestRace(closedMessage: Line, interval: real) returns (s: State)
    ensures Reachable(s, interval) && s.user == Returned
    ensures s.put == [closedMessage] && Delivered(s.ch.chunks) == []
  {
    var s0 := Init(0, {});
    var upload := UploaderStep(0);
    var s2 := s0.(pc := TestExit);
    var s3 := Put(s2, closedMessage).(user := Joining);
    var s4 := s3.(event := true, user := Waiting);
    var s5 := s4.(pc := Done);
    s := s5.(user := Returned);
    OneStep(s0, upload, interval);
    OneStep(s0.(pc := TestEmpty), upload, interval);
    OneStep(s2, Close(closedMessage), interval);
    OneStep(s3, SetEvent, interval);
    OneStep(s4, upload, interval);
    OneStep(s5, ReturnFromClose, interval);
    RunConcat(s4, [upload], s5, [ReturnFromClose], s, interval);
    RunConcat(s3, [SetEvent], s4, [upload] + [ReturnFromClose], s, interval);
    RunConcat(s2, [Close(closedMessage)], s3, [SetEvent] + ([upload] + [ReturnFromClose]), s, interval);
    RunConcat(s0, [upload], s0.(pc := TestEmpty), [upload], s2, interval);
    RunConcat(s0, [upload] + [upload], s2,
              [Close(closedMessage)] + ([SetEvent] + ([upload] + [ReturnFromClose])), s, interval);
  }

  // ----- `close` returns -----

  /** A bound on the steps left before the upload thread is done, once the event is set. */
  function StepsLeft(s: State): nat {
    var q := |s.ch.queue|;
    var pass := if q == 0 then 3 else 2 * q + 9;
    match s.pc
    case Done => 0
    case ReadClock => pass
    case TestEmpty => pass - 1
    case TestExit => 1
    case TestEvent => 2 * q + 7
    case TestAge => 2 * q + 11
    case FlushTest => 2 * q + 6
    case FlushGet => 2 * q + 5
    case Upload => 2 + pass
    case Sleep => 1 + pass
  }

  lemma ClosingStepDescends(s: State, a: Action, interval: real)
    requires Inv(s) && s.user == Waiting && Enabled(s, a)
    ensures var t := Next(s, a, interval);
      t.user == Returned || (t.user == Waiting && StepsLeft(t) < StepsLeft(s))
  {
    hide Delivered, Due;
    if a.UploaderStep? {
      match s.pc
      case Upload => BatchDelivered(s.ch, s.items, s.now);
      case _ =>
    }
  }

  /** Once the event is set, `close` returns after at most `StepsLeft` + 1 steps of whatever thread
      runs, and until it returns some thread can always run. */
  lemma {:induction false} CloseReturns(s: State, acts: seq<Action>, t: State, interval: real)
    requires Inv(s) && s.user == Waiting && Run(s, acts, t, interval)
    ensures t.user == Waiting ==> |acts| + StepsLeft(t) <= StepsLeft(s)
    ensures t.user == Waiting ==> exists a :: Enabled(t, a)
    ensures t.user in {Waiting, Returned}
    ensures |acts| <= StepsLeft(s) + 1
    decreases |acts|
  {
    if acts == [] {
      assert Enabled(s, if s.pc == Done then ReturnFromClose else UploaderStep(0));
    } else {
      var u := Next(s, acts[0], interval);
      StepKeepsInv(s, acts[0], interval);
      ClosingStepDescends(s, acts[0], interval);
      if u.user == Waiting {
        CloseReturns(u, acts[1..], t, interval);
      } else {
        NoStepAfterReturn(u, acts[1..], t, interval);
      }
    }
  }

  lemma {:induction false} NoStepAfterReturn(s: State, acts: seq<Action>, t: State, interval: real)
    requires Inv(s) && s.user == Returned && Run(s, acts, t, interval)
    ensures acts == [] && t == s
  {
    assert forall a :: !Enabled(s, a);
  }

  // ----- the undisturbed pass is one of these interleavings -----

  lemma {:induction false} RunConcat(s: State, a: seq<Action>, t: State, b: seq<Action>, u: State, interval: real)
    requires Run(s, a, t, interval) && Run(t, b, u, interval)
    ensures Run(s, a + b, u, interval)
    decreases |a|
  {
    if a == [] {
      assert a + b == b;
    } else {
      RunConcat(Next(s, a[0], interval), a[1..], t, b, u, interval);
      assert (a + b)[1..] == a[1..] + b;
    }
  }

  lemma {:induction false} OneStep(s: State, a: Action, interval: real)
    requires Enabled(s, a)
    ensures Run(s, [a], Next(s, a, interval), interval)
  {
    assert [a][1..] == [];
    assert Run(Next(s, a, interval), [a][1..], Next(s, a, interval), interval);
  }

  lemma {:induction false} Drains(s: State, interval: real) returns (acts: seq<Action>)
    requires s.pc == FlushTest
    ensures Run(s, acts, s.(ch := s.ch.(queue := []), items := s.items + s.ch.queue, pc := Upload), interval)
    ensures forall i :: 0 <= i < |acts| ==> acts[i] == UploaderStep(s.now)
    decreases |s.ch.queue|
  {
    var a := UploaderStep(s.now);
    var s1 := Next(s, a, interval);
    OneStep(s, a, interval);
    if s.ch.queue == [] {
      acts := [a];
      assert s.items + s.ch.queue == s.items;
    } else {
      var s2 := Next(s1, a, interval);
      OneStep(s1, a, interval);
      RunConcat(s, [a], s1, [a], s2, interval);
      var rest := Drains(s2, interval);
      assert s.items + [s.ch.queue[0]] + s.ch.queue[1..] == s.items + s.ch.queue;
      RunConcat(s, [a] + [a], s2, rest,
                s.(ch := s.ch.(queue := []), items := s.items + s.ch.queue, pc := Upload), interval);
      acts := [a] + [a] + rest;
    }
  }

  ghost predicate UploaderOnly(acts: seq<Action>, clock: int) {
    forall i :: 0 <= i < |acts| ==> acts[i] == UploaderStep(clock)
  }

  /** The pass that `PipesChannel.Iteration` computes in one go is the run in which the upload thread
      takes all its steps of one pass without any other thread in between. */
  lemma IterationIsARun(s: State, clock: int, interval: real) returns (acts: seq<Action>, t: State)
    requires s.pc == ReadClock && s.items == []
    ensures Run(s, acts, t, interval) && UploaderOnly(acts, clock)
    ensures (t.ch, t.pc == Done) == Iteration(s.ch, clock, s.event, interval)
    ensures t.pc in {Done, ReadClock} && t.items == [] && t.put == s.put
  {
    var a := UploaderStep(clock);
    acts, t := [], s;
    while t.pc !in {Done, FlushTest, Sleep}
      invariant Run(s, acts, t, interval) && UploaderOnly(acts, clock)
      invariant t == s.(pc := t.pc, now := t.now, looked := t.looked, lookedLate := t.lookedLate)
      invariant t.pc in {ReadClock, TestEmpty, TestExit, TestEvent, TestAge, Done, FlushTest, Sleep}
      invariant t.pc != ReadClock ==> t.now == clock
      invariant t.pc == TestExit ==> s.ch.queue == []
      invariant t.pc == Done ==> s.event && s.ch.queue == []
      invariant t.pc == TestEvent ==> !(s.event && s.ch.queue == [])
      invariant t.pc == TestAge ==> !s.event
      invariant t.pc == FlushTest ==>
        !(s.event && s.ch.queue == []) && (s.event || Due(clock, s.ch.lastUpload, interval))
      invariant t.pc == Sleep ==> !s.event && !Due(clock, s.ch.lastUpload, interval)
      decreases match t.pc
                case ReadClock => 5 case TestEmpty => 4 case TestExit => 3 case TestEvent => 2 case TestAge => 1
                case _ => 0
    {
      OneStep(t, a, interval);
      RunConcat(s, acts, t, [a], Next(t, a, interval), interval);
      acts, t := acts + [a], Next(t, a, interval);
    }
    if t.pc == FlushTest {
      var drain := Drains(t, interval);
      var u := t.(ch := t.ch.(queue := []), items := t.items + t.ch.queue, pc := Upload);
      assert t.items + t.ch.queue == t.ch.queue;
      RunConcat(s, acts, t, drain, u, interval);
      OneStep(u, a, interval);
      RunConcat(s, acts + drain, u, [a], Next(u, a, interval), interval);
      acts, t := acts + drain + [a], Next(u, a, interval);
    }
    if t.pc == Sleep {
      OneStep(t, a, interval);
      RunConcat(s, acts, t, [a], Next(t, a, interval), interval);
      acts, t := acts + [a], Next(t, a, interval);
    }
  }
}
