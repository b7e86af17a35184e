/** The GraphQL websocket endpoint: one receive loop and the subscription tasks it starts, sharing one
    socket. Tasks take turns at every `await`, so each action below is one stretch between awaits. */
module SubscriptionEndpoint {

  type OpId = string

  datatype Kind = Data | Error | Complete

  /** What goes over the wire. `stamp` is the number of the task that sends the frame; an ERROR frame
      carries the number that the task would have got. `Lost` marks the moment of disconnection. */
  datatype Event = Ack | Frame(kind: Kind, id: OpId, stamp: nat) | Lost

  datatype Phase = Streaming | Finishing | Finished
  datatype Task = Task(id: OpId, phase: Phase, cancelled: bool)

  /** `Subscribing` waits for `execute_graphql_subscription`; `Leaving` has left the loop, normally or by
      an exception, and has not yet run its `finally` block. */
  datatype Loop = Listening | Subscribing(id: OpId) | Leaving | Ended

  datatype State = State(
    tasks: map<OpId, nat>, created: seq<Task>, connected: bool, loop: Loop, wire: seq<Event>)

  datatype Action =
    | ReceiveInit
    | ReceiveStart(id: OpId)
    | ReceiveStop(id: OpId)
    | ReceiveOther
    | ReceiveTerminate
    | ReceiveDisconnect
    | Subscribed
    | SubscriptionRejected
    | SubscriptionRaised
    | LeaveLoop
    | CleanUp
    | ConnectionLost
    | SendResult(t: nat)
    | StreamEnds(t: nat)
    | StreamFails(t: nat)
    | SendComplete(t: nat)
    | TaskDies(t: nat)

  /** What the client sends; a START comes with how its subscription will turn out. */
  datatype Outcome = Accepted | Rejected | Raised
  datatype Message = Init | StartOperation(id: OpId, outcome: Outcome) | StopOperation(id: OpId) | Other | Terminate

  const START := State(map[], [], true, Listening, [])

  predicate Live(s: State, t: int) {
    0 <= t < |s.created| && !s.created[t].cancelled
  }

  predicate Enabled(s: State, a: Action) {
    match a
    case ReceiveInit => s.loop == Listening
    case ReceiveStart(_) => s.loop == Listening
    case ReceiveStop(_) => s.loop == Listening
    case ReceiveOther => s.loop == Listening
    case ReceiveTerminate => s.loop == Listening
    case ReceiveDisconnect => s.loop == Listening
    case Subscribed => s.loop.Subscribing?
    case SubscriptionRejected => s.loop.Subscribing?
    case SubscriptionRaised => s.loop.Subscribing?
    case LeaveLoop => s.loop == Listening && !s.connected
    case CleanUp => s.loop == Leaving
    case ConnectionLost => true
    case SendResult(t) => Live(s, t) && s.created[t].phase == Streaming
    case StreamEnds(t) => Live(s, t) && s.created[t].phase == Streaming
    case StreamFails(t) => Live(s, t) && s.created[t].phase == Streaming
    case SendComplete(t) => Live(s, t) && s.created[t].phase == Finishing
    case TaskDies(t) => Live(s, t) && s.created[t].phase != Finished
  }

  function Disconnect(s: State): State {
    if s.connected then s.(connected := false, wire := s.wire + [Lost]) else s
  }

  /** `_send_message`: nothing is sent once the socket is disconnected. */
  function SendMessage(s: State, kind: Kind, id: OpId, stamp: nat): State {
    if s.connected then s.(wire := s.wire + [Frame(kind, id, stamp)]) else s
  }

  function SetPhase(s: State, t: nat, phase: Phase): State
    requires t < |s.created|
  {
    s.(created := s.created[t := s.created[t].(phase := phase)])
  }

  function CancelAll(created: seq<Task>, doomed: set<nat>): (r: seq<Task>)
    ensures |r| == |created|
  {
    seq(|created|, i requires 0 <= i < |created| => if i in doomed then created[i].(cancelled := true) else created[i])
  }

  function Start(s: State, id: OpId): State {
    if id in s.tasks then s else s.(loop := Subscribing(id))
  }

  function Stop(s: State, id: OpId): State {
    if id !in s.tasks then s
    else s.(created := CancelAll(s.created, {s.tasks[id]}), tasks := s.tasks - {id})
  }

  function Register(s: State, id: OpId): State {
    s.(created := s.created + [Task(id, Streaming, false)], tasks := s.tasks[id := |s.created|], loop := Listening)
  }

  function Next(s: State, a: Action): State
    requires Enabled(s, a)
  {
    match a
    // this send is not guarded: on a disconnected socket it raises
    case ReceiveInit => if s.connected then s.(wire := s.wire + [Ack]) else s.(loop := Leaving)
    case ReceiveStart(id) => Start(s, id)
    case ReceiveStop(id) => Stop(s, id)
    case ReceiveOther => s
    case ReceiveTerminate => Disconnect(s).(loop := Leaving)
    case ReceiveDisconnect => Disconnect(s).(loop := Leaving)
    case Subscribed => Register(s, s.loop.id)
    case SubscriptionRejected => SendMessage(s, Error, s.loop.id, |s.created|).(loop := Listening)
    case SubscriptionRaised => s.(loop := Leaving)
    case LeaveLoop => s.(loop := Leaving)
    case CleanUp => s.(created := CancelAll(s.created, s.tasks.Values), loop := Ended)
    case ConnectionLost => Disconnect(s)
    case SendResult(t) => SendMessage(s, Data, s.created[t].id, t)
    case StreamEnds(t) => SetPhase(s, t, Finishing)
    case StreamFails(t) => SetPhase(SendMessage(s, Data, s.created[t].id, t), t, Finishing)
    case SendComplete(t) => SetPhase(SendMessage(s, Complete, s.created[t].id, t), t, Finished)
    case TaskDies(t) => SetPhase(s, t, Finished)
  }

  ghost predicate Run(s: State, acts: seq<Action>, t: State)
    decreases |acts|
  {
    if acts == [] then s == t else Enabled(s, acts[0]) && Run(Next(s, acts[0]), acts[1..], t)
  }

  ghost predicate Reachable(s: State) {
    exists acts :: Run(START, acts, s)
  }

  // ----- the task table -----

  /** Every uncancelled task is the one that the table holds under its id. */
  ghost predicate TableInv(s: State) {
    && (forall t :: Live(s, t) ==> s.created[t].id in s.tasks && s.tasks[s.created[t].id] == t)
    && (forall id :: id in s.tasks ==> s.tasks[id] < |s.created| && s.created[s.tasks[id]].id == id)
    && (s.loop.Subscribing? ==> s.loop.id !in s.tasks)
    && (s.loop == Ended ==> forall t :: !Live(s, t))
  }

  lemma RegisterKeepsTable(s: State)
    requires TableInv(s) && s.loop.Subscribing?
    ensures TableInv(Register(s, s.loop.id))
  {
    var n := Register(s, s.loop.id);
    forall t | Live(n, t)
      ensures n.created[t].id in n.tasks && n.tasks[n.created[t].id] == t
    {
      if t < |s.created| {
        assert Live(s, t);
      }
    }
  }

  lemma CancelKeepsTable(s: State, a: Action)
    requires TableInv(s) && Enabled(s, a) && (a.ReceiveStop? || a == CleanUp)
    ensures TableInv(Next(s, a))
  {
    var n := Next(s, a);
    forall t | Live(n, t)
      ensures Live(s, t) && a != CleanUp && s.tasks[s.created[t].id] == t && n.created[t] == s.created[t]
    {
      assert Live(s, t);
    }
  }

  lemma StepKeepsTable(s: State, a: Action)
    requires TableInv(s) && Enabled(s, a)
    ensures TableInv(Next(s, a))
  {
    hide TableInv;
    match a
    case Subscribed => RegisterKeepsTable(s);
    case ReceiveStop(_) => CancelKeepsTable(s, a);
    case CleanUp => CancelKeepsTable(s, a);
    case _ => TableStays(s, Next(s, a));
  }

  /** Steps that neither add nor cancel a task, and start a subscription only for an id not in the table. */
  lemma TableStays(s: State, n: State)
    requires TableInv(s) && n.tasks == s.tasks && |n.created| == |s.created|
    requires forall t :: 0 <= t < |s.created| ==>
      n.created[t].id == s.created[t].id && n.created[t].cancelled == s.created[t].cancelled
    requires n.loop == s.loop || n.loop == Listening || n.loop == Leaving
          || (n.loop.Subscribing? && n.loop.id !in n.tasks)
    ensures TableInv(n)
  {
    forall t | Live(n, t) ensures Live(s, t) {}
  }

  // ----- the wire -----

  /** Frames of one id come in the order of their tasks; the frames of one task are DATA frames and then
      at most one COMPLETE; nothing follows the disconnection. */
  ghost predicate WireOrder(wire: seq<Event>) {
    && (forall i, j :: 0 <= i < j < |wire| && wire[i].Frame? && wire[j].Frame? && wire[i].id == wire[j].id ==>
          && wire[i].stamp <= wire[j].stamp
          && (wire[i].stamp == wire[j].stamp && wire[j].kind != Error ==> wire[i].kind != Complete))
    && (forall i :: 0 <= i < |wire| - 1 ==> wire[i] != Lost)
  }

  ghost predicate WireInv(s: State) {
    && WireOrder(s.wire)
    && (s.connected <==> Lost !in s.wire)
    && (forall i :: 0 <= i < |s.wire| && s.wire[i].Frame? ==> FrameInv(s, s.wire[i]))
  }

  ghost predicate FrameInv(s: State, f: Event)
    requires f.Frame?
  {
    && f.stamp <= |s.created|
    && (f.kind != Error ==> f.stamp < |s.created| && s.created[f.stamp].id == f.id)
    && (f.kind == Complete ==> s.created[f.stamp].phase == Finished)
    && (forall t :: Live(s, t) && s.created[t].id == f.id ==> f.stamp <= t)
  }

  /** Steps that only cancel tasks, end phases or add a task keep what is known about old frames. */
  lemma FramesStay(s: State, n: State)
    requires WireInv(s)
    requires |s.created| <= |n.created|
    requires forall t :: 0 <= t < |s.created| ==>
      && n.created[t].id == s.created[t].id
      && (s.created[t].phase == Finished ==> n.created[t].phase == Finished)
      && (s.created[t].cancelled ==> n.created[t].cancelled)
    ensures forall i :: 0 <= i < |s.wire| && s.wire[i].Frame? ==> FrameInv(n, s.wire[i])
  {
    forall i | 0 <= i < |s.wire| && s.wire[i].Frame?
      ensures FrameInv(n, s.wire[i])
    {
      var f := s.wire[i];
      forall t | Live(n, t) && n.created[t].id == f.id ensures f.stamp <= t {
        if t < |s.created| {
          assert Live(s, t);
        }
      }
    }
  }

  /** A frame may be sent when its stamp is at least that of every earlier frame of its id and no COMPLETE
      with that stamp was sent. */
  lemma SendKeepsWire(s: State, kind: Kind, id: OpId, stamp: nat)
    requires WireInv(s)
    requires FrameInv(s, Frame(kind, id, stamp))
    requires forall i :: 0 <= i < |s.wire| && s.wire[i].Frame? && s.wire[i].id == id ==>
      s.wire[i].stamp <= stamp && (s.wire[i].stamp == stamp && kind != Error ==> s.wire[i].kind != Complete)
    ensures WireInv(SendMessage(s, kind, id, stamp))
  {
    FramesStay(s, SendMessage(s, kind, id, stamp));
  }

  lemma TaskMaySend(s: State, t: nat, kind: Kind)
    requires TableInv(s) && WireInv(s) && Live(s, t) && kind != Error
    requires s.created[t].phase != Finished && kind != Complete
    ensures WireInv(SendMessage(s, kind, s.created[t].id, t))
  {
    TaskFrameInv(s, t, kind);
    SendKeepsWire(s, kind, s.created[t].id, t);
  }

  lemma TaskFrameInv(s: State, t: nat, kind: Kind)
    requires TableInv(s) && Live(s, t) && kind != Error
    requires kind == Complete ==> s.created[t].phase == Finished
    ensures FrameInv(s, Frame(kind, s.created[t].id, t))
  {
    forall u | Live(s, u) && s.created[u].id == s.created[t].id ensures t <= u {
      assert s.tasks[s.created[u].id] == u;
    }
  }

  lemma PhaseKeepsWire(s: State, t: nat, phase: Phase)
    requires WireInv(s) && t < |s.created| && s.created[t].phase != Finished
    ensures WireInv(SetPhase(s, t, phase))
  {
    FramesStay(s, SetPhase(s, t, phase));
  }

  lemma CompleteKeepsWire(s: State, t: nat)
    requires TableInv(s) && WireInv(s) && Enabled(s, SendComplete(t))
    ensures WireInv(Next(s, SendComplete(t)))
  {
    var n := SetPhase(s, t, Finished);
    PhaseKeepsWire(s, t, Finished);
    StepKeepsTable(s, TaskDies(t));
    TaskFrameInv(n, t, Complete);
    assert Live(s, t);
    SendKeepsWire(n, Complete, s.created[t].id, t);
    assert Next(s, SendComplete(t)) == SendMessage(n, Complete, s.created[t].id, t);
  }

  lemma RejectionKeepsWire(s: State)
    requires TableInv(s) && WireInv(s) && s.loop.Subscribing?
    ensures WireInv(Next(s, SubscriptionRejected))
  {
    var n := SendMessage(s, Error, s.loop.id, |s.created|);
    SendKeepsWire(s, Error, s.loop.id, |s.created|);
    FramesStay(n, n.(loop := Listening));
  }

  lemma QuietKeepsWire(s: State, n: State)
    requires WireInv(s)
    requires forall i :: 0 <= i < |s.wire| && s.wire[i].Frame? ==> FrameInv(n, s.wire[i])
    requires (n.wire == s.wire && n.connected == s.connected)
          || (n.wire == s.wire + [Ack] && s.connected && n.connected)
          || (n.wire == s.wire + [Lost] && s.connected && !n.connected)
    ensures WireInv(n)
  {
  }

  lemma StepKeepsWire(s: State, a: Action)
    requires TableInv(s) && WireInv(s) && Enabled(s, a)
    ensures WireInv(Next(s, a))
  {
    hide TableInv, WireInv, FrameInv;
    match a
    case SendResult(t) => TaskMaySend(s, t, Data);
    case StreamEnds(t) => PhaseKeepsWire(s, t, Finishing);
    case StreamFails(t) =>
      TaskMaySend(s, t, Data);
      PhaseKeepsWire(SendMessage(s, Data, s.created[t].id, t), t, Finishing);
    case SendComplete(t) => CompleteKeepsWire(s, t);
    case TaskDies(t) => PhaseKeepsWire(s, t, Finished);
    case SubscriptionRejected => RejectionKeepsWire(s);
    case _ =>
      FramesStay(s, Next(s, a));
      QuietKeepsWire(s, Next(s, a));
  }

  lemma {:induction false} RunKeepsInv(s: State, acts: seq<Action>, t: State)
    requires TableInv(s) && WireInv(s) && Run(s, acts, t)
    ensures TableInv(t) && WireInv(t)
    decreases |acts|
  {
    if acts != [] {
      StepKeepsTable(s, acts[0]);
      StepKeepsWire(s, acts[0]);
      RunKeepsInv(Next(s, acts[0]), acts[1..], t);
    }
  }

  lemma ReachableInv(s: State)
    requires Reachable(s)
    ensures TableInv(s) && WireInv(s)
  {
    var acts :| Run(START, acts, s);
    assert WireOrder([]) && TableInv(START) && WireInv(START);
    RunKeepsInv(START, acts, s);
  }

  // ----- what holds in every run -----

  /** No task is leaked: each is in the table or cancelled; no id has two uncancelled tasks; and when the
      endpoint has ended, every task ever created is cancelled. */
  lemma NoTaskLeaks(s: State)
    requires Reachable(s)
    ensures forall t :: 0 <= t < |s.created| ==> t in s.tasks.Values || s.created[t].cancelled
    ensures forall t, u :: Live(s, t) && Live(s, u) && s.created[t].id == s.created[u].id ==> t == u
    ensures s.loop == Ended ==> forall t :: 0 <= t < |s.created| ==> s.created[t].cancelled
  {
    ReachableInv(s);
    forall t | 0 <= t < |s.created| && !s.created[t].cancelled
      ensures t in s.tasks.Values && s.loop != Ended
    {
      assert Live(s, t);
      assert s.tasks[s.created[t].id] == t;
    }
  }

  /** The kinds of the frames that task `t` sent among the first `n` events, in order. */
  function FramesOf(wire: seq<Event>, n: nat, t: nat): seq<Kind>
    requires n <= |wire|
  {
    if n == 0 then []
    else
      var e := wire[n - 1];
      FramesOf(wire, n - 1, t) + if e.Frame? && e.kind != Error && e.stamp == t then [e.kind] else []
  }

  ghost predicate DataThenComplete(kinds: seq<Kind>) {
    forall i :: 0 <= i < |kinds| ==> kinds[i] == Data || (kinds[i] == Complete && i == |kinds| - 1)
  }

  lemma {:induction false} FramesOfShape(wire: seq<Event>, n: nat, t: nat, id: OpId)
    requires WireOrder(wire) && n <= |wire|
    requires forall i :: 0 <= i < |wire| && wire[i].Frame? && wire[i].kind != Error && wire[i].stamp == t ==>
               wire[i].id == id
    ensures DataThenComplete(FramesOf(wire, n, t))
    ensures Complete in FramesOf(wire, n, t) ==> exists i :: 0 <= i < n && wire[i] == Frame(Complete, id, t)
  {
    if n > 0 {
      FramesOfShape(wire, n - 1, t, id);
      var kinds := FramesOf(wire, n - 1, t);
      var e := wire[n - 1];
      if e.Frame? && e.kind != Error && e.stamp == t {
        assert Complete !in kinds;
        assert FramesOf(wire, n, t) == kinds + [e.kind];
        assert e == Frame(e.kind, id, t);
      } else {
        assert FramesOf(wire, n, t) == kinds;
      }
    }
  }

  /** The frames of each task are DATA* and then at most one COMPLETE; frames of different incarnations of
      one id never interleave; and no frame follows the disconnection. */
  lemma FrameLanguages(s: State)
    requires Reachable(s)
    ensures forall t :: 0 <= t < |s.created| ==> DataThenComplete(FramesOf(s.wire, |s.wire|, t))
    ensures forall i, j :: 0 <= i < j < |s.wire| && s.wire[i].Frame? && s.wire[j].Frame? && s.wire[i].id == s.wire[j].id
              ==> s.wire[i].stamp <= s.wire[j].stamp
    ensures forall i :: 0 <= i < |s.wire| - 1 ==> s.wire[i] != Lost
    ensures s.connected <==> Lost !in s.wire
  {
    ReachableInv(s);
    forall t | 0 <= t < |s.created| ensures DataThenComplete(FramesOf(s.wire, |s.wire|, t)) {
      FramesOfShape(s.wire, |s.wire|, t, s.created[t].id);
    }
  }

  // ----- the code of the endpoint -----

  lemma {:induction false} RunThen(s: State, acts: seq<Action>, t: State, a: Action)
    requires Run(s, acts, t) && Enabled(t, a)
    ensures Run(s, acts + [a], Next(t, a))
    decreases |acts|
  {
    if acts == [] {
      assert [a][1..] == [];
      assert Run(Next(t, a), [a][1..], Next(t, a));
      assert acts + [a] == [a];
    } else {
      RunThen(Next(s, acts[0]), acts[1..], t, a);
      assert (acts + [a])[1..] == acts[1..] + [a];
    }
  }

  function Asked(m: Message): Action {
    match m
    case Init => ReceiveInit
    case StartOperation(id, _) => ReceiveStart(id)
    case StopOperation(id) => ReceiveStop(id)
    case Other => ReceiveOther
    case Terminate => ReceiveTerminate
  }

  function AllAsked(messages: seq<Message>): seq<Action> {
    seq(|messages|, i requires 0 <= i < |messages| => Asked(messages[i]))
  }

  lemma AllAskedThen(messages: seq<Message>, i: nat)
    requires i <= |messages|
    ensures i == 0 ==> AllAsked(messages[..i]) == []
    ensures i < |messages| ==> AllAsked(messages[..i + 1]) == AllAsked(messages[..i]) + [Asked(messages[i])]
    ensures i == |messages| ==> messages[..i] == messages
    ensures AllAsked(messages[..i]) <= AllAsked(messages)
  {
  }

  function Answer(outcome: Outcome): Action {
    match outcome
    case Accepted => Subscribed
    case Rejected => SubscriptionRejected
    case Raised => SubscriptionRaised
  }

  predicate TurnOfOthers(a: Action) {
    a == ConnectionLost || a.SendResult? || a.StreamEnds? || a.StreamFails? || a.SendComplete? || a.TaskDies?
  }

  /** What the receive loop itself has received, in order. */
  function Inputs(acts: seq<Action>): seq<Action> {
    if acts == [] then []
    else
      var a := acts[|acts| - 1];
      Inputs(acts[..|acts| - 1])
      + if a.ReceiveInit? || a.ReceiveStart? || a.ReceiveStop? || a.ReceiveOther? || a.ReceiveTerminate?
           || a.ReceiveDisconnect? then [a] else []
  }

  lemma {:induction false} InputsThen(acts: seq<Action>, a: Action)
    ensures Inputs(acts + [a])
         == Inputs(acts)
            + if TurnOfOthers(a) || a in {Subscribed, SubscriptionRejected, SubscriptionRaised, LeaveLoop, CleanUp}
              then [] else [a]
  {
    assert (acts + [a])[..|acts|] == acts;
  }

  /** `n` times the frame `e`, if the client is there to get it. */
  function Frames(connected: bool, e: Event, n: nat): seq<Event> {
    if connected then seq(n, _ => e) else []
  }

  class Endpoint {
    var tasks: map<OpId, nat>
    var created: seq<Task>
    var connected: bool
    var loop: Loop
    var wire: seq<Event>

    ghost function Value(): State
      reads this
    {
      State(tasks, created, connected, loop, wire)
    }

    constructor ()
      ensures Value() == START
    {
      tasks, created, connected, loop, wire := map[], [], true, Listening, [];
    }

    method SendFrame(kind: Kind, id: OpId, stamp: nat)
      modifies `wire
      ensures Value() == SendMessage(old(Value()), kind, id, stamp)
    {
      if connected {
        wire := wire + [Frame(kind, id, stamp)];
      }
    }

    method Cancel(t: nat)
      requires t < |created|
      modifies `created
      ensures created == CancelAll(old(created), {t})
    {
      created := created[t := created[t].(cancelled := true)];
    }

    method OnInit()
      requires loop == Listening
      modifies this
      ensures Value() == Next(old(Value()), ReceiveInit)
    {
      if connected {
        wire := wire + [Ack];
      } else {
        loop := Leaving;
      }
    }

    method OnTerminate()
      requires loop == Listening
      modifies this
      ensures Value() == Next(old(Value()), ReceiveTerminate)
    {
      if connected {
        connected := false;
        wire := wire + [Lost];
      }
      loop := Leaving;
    }

    method OnStart(id: OpId)
      requires loop == Listening
      modifies this
      ensures Value() == Next(old(Value()), ReceiveStart(id))
    {
      if id in tasks {
        return;
      }
      loop := Subscribing(id);
    }

    /** The rest of the START branch, once `execute_graphql_subscription` has returned. */
    method OnSubscriptionResult(rejected: bool)
      requires loop.Subscribing?
      modifies this
      ensures Value() == Next(old(Value()), if rejected then SubscriptionRejected else Subscribed)
    {
      var id := loop.id;
      if rejected {
        SendFrame(Error, id, |created|);
      } else {
        tasks := tasks[id := |created|];
        created := created + [Task(id, Streaming, false)];
      }
      loop := Listening;
    }

    method OnStop(id: OpId)
      requires loop == Listening && TableInv(Value())
      modifies this
      ensures Value() == Next(old(Value()), ReceiveStop(id))
    {
      if id !in tasks {
        return;
      }
      Cancel(tasks[id]);
      tasks := tasks - {id};
    }

    /** The `async for` loop of `_handle_async_results`, undisturbed. */
    method SendResults(t: nat, results: nat) returns (ghost acts: seq<Action>)
      requires Live(Value(), t) && created[t].phase == Streaming
      modifies `wire
      ensures Run(old(Value()), acts, Value()) && acts == seq(results, _ => SendResult(t))
      ensures wire == old(wire) + Frames(connected, Frame(Data, created[t].id, t), results)
    {
      ghost var s0 := Value();
      acts := [];
      for i := 0 to results
        invariant acts == seq(i, _ => SendResult(t))
        invariant Run(s0, acts, Value())
        invariant wire == s0.wire + Frames(connected, Frame(Data, created[t].id, t), i)
      {
        RunThen(s0, acts, Value(), SendResult(t));
        SendFrame(Data, created[t].id, t);
        acts := acts + [SendResult(t)];
      }
    }

    /** `_handle_async_results`, undisturbed: the stream yields `results` results and then ends or raises. A
        client that is there gets a DATA frame for each result and for the error, and then COMPLETE. */
    method HandleAsyncResults(t: nat, results: nat, raises: bool) returns (ghost acts: seq<Action>)
      requires Live(Value(), t) && created[t].phase == Streaming
      modifies `wire, `created
      ensures Run(old(Value()), acts, Value())
      ensures acts == seq(results, _ => SendResult(t))
                      + [if raises then StreamFails(t) else StreamEnds(t), SendComplete(t)]
      ensures var id := old(created)[t].id;
        wire == old(wire) + Frames(connected, Frame(Data, id, t), if raises then results + 1 else results)
                + Frames(connected, Frame(Complete, id, t), 1)
      ensures created == old(created)[t := old(created)[t].(phase := Finished)]
    {
      ghost var s0 := Value();
      acts := SendResults(t, results);
      hide Run;
      if raises {
        RunThen(s0, acts, Value(), StreamFails(t));
        SendFrame(Data, created[t].id, t);
        acts := acts + [StreamFails(t)];
      } else {
        RunThen(s0, acts, Value(), StreamEnds(t));
        acts := acts + [StreamEnds(t)];
      }
      created := created[t := created[t].(phase := Finishing)];
      RunThen(s0, acts, Value(), SendComplete(t));
      SendFrame(Complete, created[t].id, t);
      created := created[t := created[t].(phase := Finished)];
      acts := acts + [SendComplete(t)];
    }

    /** The `finally` block. */
    method Finish()
      requires loop == Leaving && TableInv(Value())
      modifies this
      ensures Value() == Next(old(Value()), CleanUp)
    {
      var todo := tasks.Keys;
      while todo != {}
        invariant todo <= tasks.Keys
        invariant |created| == |old(created)|
        invariant forall id :: id in tasks ==> tasks[id] < |created|
        invariant unchanged(`tasks, `connected, `loop, `wire)
        invariant forall t :: 0 <= t < |created| ==>
          created[t] == if exists id :: id in tasks.Keys - todo && tasks[id] == t
                        then old(created)[t].(cancelled := true) else old(created)[t]
        decreases todo
      {
        ghost var before := created;
        var id :| id in todo;
        Cancel(tasks[id]);
        todo := todo - {id};
        forall t | 0 <= t < |created|
          ensures created[t] == if exists id :: id in tasks.Keys - todo && tasks[id] == t
                                then old(created)[t].(cancelled := true) else old(created)[t]
        {
          if t == tasks[id] {
            assert id in tasks.Keys - todo;
          } else if exists id' :: id' in tasks.Keys - todo && tasks[id'] == t {
            var id' :| id' in tasks.Keys - todo && tasks[id'] == t;
            assert id' in tasks.Keys - (todo + {id});
          }
        }
      }
      loop := Ended;
    }

    // ----- the receive loop -----

    /** A turn of another coroutine at an `await`: a task or the connection takes a step, if it can. */
    method OtherTurn(a: Action, ghost acts: seq<Action>) returns (ghost now: seq<Action>)
      requires Run(START, acts, Value())
      modifies `connected, `created, `wire
      ensures Run(START, now, Value())
      ensures now == if TurnOfOthers(a) && Enabled(old(Value()), a) then acts + [a] else acts
    {
      now := acts;
      if a == ConnectionLost {
        RunThen(START, acts, Value(), a);
        now := acts + [a];
        if connected {
          connected := false;
          wire := wire + [Lost];
        }
      } else if a.SendResult? || a.StreamEnds? || a.StreamFails? || a.SendComplete? || a.TaskDies? {
        if a.t < |created| && !created[a.t].cancelled {
          now := TaskTurn(a, acts);
        }
      }
    }

    method TaskTurn(a: Action, ghost acts: seq<Action>) returns (ghost now: seq<Action>)
      requires Run(START, acts, Value())
      requires a.SendResult? || a.StreamEnds? || a.StreamFails? || a.SendComplete? || a.TaskDies?
      requires Live(Value(), a.t)
      modifies `created, `wire
      ensures Run(START, now, Value()) && now == if Enabled(old(Value()), a) then acts + [a] else acts
    {
      now := acts;
      var task := created[a.t];
      if task.phase == Finished || (a.SendComplete? && task.phase == Streaming)
         || ((a.SendResult? || a.StreamEnds? || a.StreamFails?) && task.phase == Finishing) {
        return;
      }
      RunThen(START, acts, Value(), a);
      now := acts + [a];
      match a {
        case SendResult(t) => SendFrame(Data, task.id, t);
        case StreamEnds(t) => created := created[t := task.(phase := Finishing)];
        case StreamFails(t) =>
          SendFrame(Data, task.id, t);
          created := created[t := task.(phase := Finishing)];
        case SendComplete(t) =>
          SendFrame(Complete, task.id, t);
          created := created[t := task.(phase := Finished)];
        case TaskDies(t) => created := created[t := task.(phase := Finished)];
      }
    }

    method OtherTurns(turns: seq<Action>, ghost acts: seq<Action>) returns (ghost now: seq<Action>)
      requires Run(START, acts, Value())
      modifies `connected, `created, `wire
      ensures Run(START, now, Value()) && acts <= now && Inputs(now) == Inputs(acts)
    {
      hide Run, Inputs, Enabled, TurnOfOthers;
      now := acts;
      for i := 0 to |turns|
        invariant Run(START, now, Value()) && acts <= now && Inputs(now) == Inputs(acts)
      {
        InputsThen(now, turns[i]);
        now := OtherTurn(turns[i], now);
      }
    }

    /** One message; while a subscription is awaited, the others take `turns`. */
    method Receive(message: Message, turns: seq<Action>, ghost acts: seq<Action>) returns (ghost now: seq<Action>)
      requires loop == Listening && Run(START, acts, Value())
      modifies this
      ensures Run(START, now, Value()) && loop in {Listening, Leaving}
      ensures acts + [Asked(message)] <= now && Inputs(now) == Inputs(acts) + [Asked(message)]
      ensures message.StartOperation? && message.id !in old(tasks) ==> now[|now| - 1] == Answer(message.outcome)
    {
      hide WireInv, Run, Inputs;
      ReachableInv(Value());
      RunThen(START, acts, Value(), Asked(message));
      InputsThen(acts, Asked(message));
      now := acts + [Asked(message)];
      match message
      case Init => OnInit();
      case Other =>
      case Terminate => OnTerminate();
      case StopOperation(id) => OnStop(id);
      case StartOperation(id, outcome) =>
        OnStart(id);
        if loop.Subscribing? {
          now := OtherTurns(turns, now);
          RunThen(START, now, Value(), Answer(outcome));
          InputsThen(now, Answer(outcome));
          now := now + [Answer(outcome)];
          if outcome == Raised {
            loop := Leaving;
          } else {
            OnSubscriptionResult(outcome == Rejected);
          }
        }
    }

    /** The body of the receive loop: the others take their turns until the next message, or the end of the
        connection, arrives. */
    method Await(messages: seq<Message>, i: nat, turns: nat -> seq<Action>, ghost acts: seq<Action>)
      returns (ghost now: seq<Action>)
      requires loop == Listening && i <= |messages| && Run(START, acts, Value())
      modifies this
      ensures Run(START, now, Value()) && loop in {Listening, Leaving} && (i == |messages| ==> loop == Leaving)
      ensures Inputs(now) == Inputs(acts) + [if i < |messages| then Asked(messages[i]) else ReceiveDisconnect]
    {
      hide Run, Inputs;
      now := OtherTurns(turns(2 * i), acts);
      if i < |messages| {
        now := Receive(messages[i], turns(2 * i + 1), now);
      } else {
        RunThen(START, now, Value(), ReceiveDisconnect);
        InputsThen(now, ReceiveDisconnect);
        now := now + [ReceiveDisconnect];
        OnTerminate();
      }
    }

    /** The whole endpoint: the client sends `messages` and is gone after them; `turns(k)` is what the tasks
        and the connection do at the k-th `await`. The messages are received one by one, until the loop is
        left; and when it ends, every task it ever created is cancelled. */
    method Serve(messages: seq<Message>, turns: nat -> seq<Action>) returns (ghost acts: seq<Action>)
      requires Value() == START
      modifies this
      ensures Run(START, acts, Value()) && loop == Ended
      ensures Inputs(acts) <= AllAsked(messages) + [ReceiveDisconnect]
      ensures forall t :: 0 <= t < |created| ==> created[t].cancelled
    {
      hide TableInv, WireInv, AllAsked;
      acts := [];
      var i := 0;
      AllAskedThen(messages, 0);
      while loop == Listening
        invariant i <= |messages| && Run(START, acts, Value()) && loop in {Listening, Leaving}
        invariant Inputs(acts) == AllAsked(messages[..i])
               || (loop == Leaving && Inputs(acts) == AllAsked(messages) + [ReceiveDisconnect])
        decreases |messages| - i, loop == Listening
      {
        hide Run, Inputs;
        if !connected {
          RunThen(START, acts, Value(), LeaveLoop);
          InputsThen(acts, LeaveLoop);
          acts := acts + [LeaveLoop];
          loop := Leaving;
        } else {
          AllAskedThen(messages, i);
          acts := Await(messages, i, turns, acts);
          i := if i < |messages| then i + 1 else i;
        }
      }
      hide Run, Inputs;
      AllAskedThen(messages, i);
      ReachableInv(Value());
      RunThen(START, acts, Value(), CleanUp);
      InputsThen(acts, CleanUp);
      Finish();
      acts := acts + [CleanUp];
      NoTaskLeaks(Value());
    }
  }
}
