/** What the client of the websocket endpoint gets and which tasks it keeps, told from the history of actions
    alone: nothing below looks at a state of the endpoint, except to compare it with the history. */
module SubscriptionHistory {
  import opened SubscriptionEndpoint

  predicate Disconnects(a: Action) {
    a in {ReceiveTerminate, ReceiveDisconnect, ConnectionLost}
  }

  /** The actions before the socket is disconnected. */
  function UntilDisconnect(acts: seq<Action>): (r: seq<Action>)
    ensures |r| <= |acts|
  {
    if acts == [] || Disconnects(acts[0]) then [] else [acts[0]] + UntilDisconnect(acts[1..])
  }

  /** The id of the last START message, for which the subscription is awaited. */
  function LastStart(acts: seq<Action>): OpId {
    if acts == [] then ""
    else
      var a := acts[|acts| - 1];
      if a.ReceiveStart? then a.id else LastStart(acts[..|acts| - 1])
  }

  /** The ids of the tasks, in the order in which their subscriptions came about. */
  function TaskIds(acts: seq<Action>): seq<OpId> {
    if acts == [] then []
    else
      var before := acts[..|acts| - 1];
      TaskIds(before) + if acts[|acts| - 1] == Subscribed then [LastStart(before)] else []
  }

  /** What `a` sends to a client that is still there, after the actions `before`. */
  function Sends(before: seq<Action>, a: Action): seq<Event> {
    var ids := TaskIds(before);
    match a
    case ReceiveInit => [Ack]
    case SubscriptionRejected => [Frame(Error, LastStart(before), |ids|)]
    case SendResult(t) => if t < |ids| then [Frame(Data, ids[t], t)] else []
    case StreamFails(t) => if t < |ids| then [Frame(Data, ids[t], t)] else []
    case SendComplete(t) => if t < |ids| then [Frame(Complete, ids[t], t)] else []
    case _ => []
  }

  function Sent(acts: seq<Action>): seq<Event> {
    if acts == [] then []
    else Sent(acts[..|acts| - 1]) + Sends(acts[..|acts| - 1], acts[|acts| - 1])
  }

  // ----- the history of a run, from its last action -----

  lemma {:induction false} RunLast(s: State, acts: seq<Action>, t: State) returns (m: State)
    requires acts != [] && Run(s, acts, t)
    ensures Run(s, acts[..|acts| - 1], m) && Enabled(m, acts[|acts| - 1]) && t == Next(m, acts[|acts| - 1])
    decreases |acts|
  {
    hide Next, Enabled;
    if |acts| == 1 {
      m := s;
      assert acts[1..] == [] && acts[..0] == [];
      assert Run(Next(s, acts[0]), acts[1..], t);
    } else {
      m := RunLast(Next(s, acts[0]), acts[1..], t);
      assert acts[1..][..|acts[1..]| - 1] == acts[..|acts| - 1][1..];
    }
  }

  lemma {:induction false} UntilDisconnectThen(acts: seq<Action>, a: Action)
    ensures UntilDisconnect(acts + [a])
         == if UntilDisconnect(acts) == acts && !Disconnects(a) then acts + [a] else UntilDisconnect(acts)
    decreases |acts|
  {
    if acts == [] {
      assert [a][1..] == [] && acts + [a] == [a];
    } else {
      assert (acts + [a])[1..] == acts[1..] + [a];
      UntilDisconnectThen(acts[1..], a);
      assert acts == [acts[0]] + acts[1..];
      if UntilDisconnect(acts) == acts {
        assert UntilDisconnect(acts)[1..] == UntilDisconnect(acts[1..]);
      }
    }
  }

  lemma {:induction false} RunIds(acts: seq<Action>, s: State)
    requires Run(START, acts, s)
    ensures |s.created| == |TaskIds(acts)|
    ensures forall t :: 0 <= t < |s.created| ==> s.created[t].id == TaskIds(acts)[t]
    ensures s.loop.Subscribing? ==> s.loop.id == LastStart(acts)
    decreases |acts|
  {
    if acts != [] {
      hide Run, SendMessage, Disconnect;
      var m := RunLast(START, acts, s);
      RunIds(acts[..|acts| - 1], m);
      TaskIdsStay(m, acts[|acts| - 1]);
    }
  }

  lemma TaskIdsStay(s: State, a: Action)
    requires Enabled(s, a)
    ensures var n := Next(s, a);
      && |n.created| == |s.created| + (if a == Subscribed then 1 else 0)
      && (forall t :: 0 <= t < |s.created| ==> n.created[t].id == s.created[t].id)
      && (a == Subscribed ==> n.created[|s.created|].id == s.loop.id)
      && (n.loop.Subscribing? ==> n.loop == if a.ReceiveStart? then Subscribing(a.id) else s.loop)
  {
  }

  /** What one step adds to the wire. */
  lemma {:induction false} StepSends(acts: seq<Action>, m: State, a: Action)
    requires Run(START, acts, m) && Enabled(m, a)
    ensures var n := Next(m, a);
      && n.wire == m.wire + (if !m.connected then [] else if Disconnects(a) then [Lost] else Sends(acts, a))
      && n.connected == (m.connected && !Disconnects(a))
  {
    RunIds(acts, m);
    hide Run, TaskIds, LastStart;
  }

  lemma {:induction false} SentThen(acts: seq<Action>, a: Action)
    ensures Sent(acts + [a]) == Sent(acts) + Sends(acts, a)
  {
    assert (acts + [a])[..|acts|] == acts;
  }

  /** The wire is what the history says. */
  ghost predicate WireMeans(acts: seq<Action>, s: State) {
    && (s.connected <==> UntilDisconnect(acts) == acts)
    && s.wire == Sent(UntilDisconnect(acts)) + if s.connected then [] else [Lost]
  }

  lemma WireMeansThen(before: seq<Action>, m: State, a: Action, n: State)
    requires WireMeans(before, m) && n.connected == (m.connected && !Disconnects(a))
    requires n.wire == m.wire + if !m.connected then [] else if Disconnects(a) then [Lost] else Sends(before, a)
    ensures WireMeans(before + [a], n)
  {
    hide Sends, Sent, UntilDisconnect, Disconnects;
    UntilDisconnectThen(before, a);
    SentThen(before, a);
    var acts := before + [a];
    assert |acts| > |before|;
    if m.connected && !Disconnects(a) {
      assert n.wire == Sent(before) + Sends(before, a);
    }
  }

  /** The whole wire of every run: every action before the disconnect sends what it calls for, in that order,
      and after the disconnect nothing is sent. */
  lemma {:induction false} WireIsHistory(acts: seq<Action>, s: State)
    requires Run(START, acts, s)
    ensures WireMeans(acts, s)
    decreases |acts|
  {
    if acts == [] {
      assert s == START;
    } else {
      hide Run, WireMeans, Sends, Disconnects, Next, Enabled;
      var (before, a) := (acts[..|acts| - 1], acts[|acts| - 1]);
      var m := RunLast(START, acts, s);
      WireIsHistory(before, m);
      StepSends(before, m, a);
      WireMeansThen(before, m, a, s);
      assert acts == before + [a];
    }
  }

  // ----- what a client gets for one subscription -----

  function CallsFor(a: Action, t: nat): seq<Kind> {
    if a == SendResult(t) || a == StreamFails(t) then [Data] else if a == SendComplete(t) then [Complete] else []
  }

  /** The frames that the actions of task `t` call for. */
  function Calls(acts: seq<Action>, t: nat): seq<Kind> {
    if acts == [] then [] else Calls(acts[..|acts| - 1], t) + CallsFor(acts[|acts| - 1], t)
  }

  lemma {:induction false} FramesOfPrefix(wire: seq<Event>, more: seq<Event>, n: nat, t: nat)
    requires n <= |wire|
    ensures FramesOf(wire + more, n, t) == FramesOf(wire, n, t)
  {
    if n > 0 {
      FramesOfPrefix(wire, more, n - 1, t);
    }
  }

  function CallIn(e: Event, t: nat): seq<Kind> {
    if e.Frame? && e.kind != Error && e.stamp == t then [e.kind] else []
  }

  lemma {:induction false} FramesThen(wire: seq<Event>, e: Event, t: nat)
    ensures FramesOf(wire + [e], |wire| + 1, t) == FramesOf(wire, |wire|, t) + CallIn(e, t)
  {
    FramesOfPrefix(wire, [e], |wire|, t);
  }

  lemma {:induction false} SendsCalls(before: seq<Action>, m: State, a: Action, t: nat)
    requires Run(START, before, m) && Enabled(m, a)
    ensures |Sends(before, a)| <= 1
    ensures CallsFor(a, t) == if Sends(before, a) == [] then [] else CallIn(Sends(before, a)[0], t)
  {
    RunIds(before, m);
    hide Run, TaskIds, LastStart;
  }

  lemma {:induction false} CallsThen(before: seq<Action>, m: State, a: Action, t: nat)
    requires Run(START, before, m) && Enabled(m, a)
    ensures FramesOf(Sent(before) + Sends(before, a), |Sent(before) + Sends(before, a)|, t)
         == FramesOf(Sent(before), |Sent(before)|, t) + CallsFor(a, t)
  {
    SendsCalls(before, m, a, t);
    hide Run, Sends, Sent, FramesOf, CallsFor, CallIn, Enabled;
    var sends := Sends(before, a);
    if sends == [] {
      assert Sent(before) + sends == Sent(before);
    } else {
      assert sends == [sends[0]];
      FramesThen(Sent(before), sends[0], t);
    }
  }

  lemma {:induction false} SentCalls(acts: seq<Action>, s: State, t: nat)
    requires Run(START, acts, s)
    ensures FramesOf(Sent(acts), |Sent(acts)|, t) == Calls(acts, t)
    decreases |acts|
  {
    if acts != [] {
      hide Run, Next, Enabled, FramesOf, Sends, CallsFor;
      var (before, a) := (acts[..|acts| - 1], acts[|acts| - 1]);
      var m := RunLast(START, acts, s);
      SentCalls(before, m, t);
      CallsThen(before, m, a, t);
    }
  }

  lemma {:induction false} RunPrefix(s: State, acts: seq<Action>, t: State, n: nat) returns (m: State)
    requires Run(s, acts, t) && n <= |acts|
    ensures Run(s, acts[..n], m)
    decreases |acts|
  {
    if n == |acts| {
      m := t;
      assert acts[..n] == acts;
    } else {
      m := RunLast(s, acts, t);
      assert acts[..|acts| - 1][..n] == acts[..n];
      m := RunPrefix(s, acts[..|acts| - 1], m, n);
    }
  }

  lemma {:induction false} UntilDisconnectIsPrefix(acts: seq<Action>)
    ensures UntilDisconnect(acts) == acts[..|UntilDisconnect(acts)|]
  {
    if acts != [] && !Disconnects(acts[0]) {
      UntilDisconnectIsPrefix(acts[1..]);
      assert acts == [acts[0]] + acts[1..];
    }
  }

  /** In every run the client of task `t` gets exactly the frames that its actions before the disconnect call
      for: a DATA frame for each result and for a failing stream, COMPLETE at the end. */
  lemma {:induction false} FramesAreCalls(acts: seq<Action>, s: State, t: nat)
    requires Run(START, acts, s)
    ensures FramesOf(s.wire, |s.wire|, t) == Calls(UntilDisconnect(acts), t)
    ensures s.connected ==> FramesOf(s.wire, |s.wire|, t) == Calls(acts, t)
  {
    var heard := UntilDisconnect(acts);
    WireIsHistory(acts, s);
    UntilDisconnectIsPrefix(acts);
    var m := RunPrefix(START, acts, s, |heard|);
    SentCalls(heard, m, t);
    FramesThen(Sent(heard), Lost, t);
    assert s.connected ==> s.wire == Sent(heard);
  }

  // ----- which tasks are left -----

  /** The action at `k` is a STOP of task `t`, after it was created, or the end of the endpoint. */
  ghost predicate CancelsAt(acts: seq<Action>, t: nat, k: nat) {
    && k < |acts| && t < |TaskIds(acts[..k])|
    && (acts[k] == CleanUp || acts[k] == ReceiveStop(TaskIds(acts[..k])[t]))
  }

  ghost predicate EverCancelled(acts: seq<Action>, t: nat) {
    exists k: nat :: CancelsAt(acts, t, k)
  }

  lemma CancelsLater(before: seq<Action>, a: Action, t: nat)
    ensures EverCancelled(before + [a], t) <==> EverCancelled(before, t) || CancelsAt(before + [a], t, |before|)
  {
    var acts := before + [a];
    assert forall k :: 0 <= k < |before| ==> before[..k] == acts[..k] && before[k] == acts[k];
    forall k: nat | CancelsAt(before, t, k) ensures CancelsAt(acts, t, k) {}
    forall k: nat | CancelsAt(acts, t, k) && k < |before| ensures CancelsAt(before, t, k) {}
  }

  /** A step cancels a task if and only if it is a STOP for the id of the task or the clean-up. */
  lemma StepCancels(s: State, a: Action, t: nat)
    requires TableInv(s) && Enabled(s, a) && t < |s.created|
    ensures Next(s, a).created[t].cancelled
       <==> s.created[t].cancelled || a == CleanUp || a == ReceiveStop(s.created[t].id)
  {
    assert !s.created[t].cancelled ==> Live(s, t);
  }

  /** In every run a task is cancelled if and only if a STOP for its id, or the end of the endpoint, came after
      its subscription. */
  lemma {:induction false} CancelledIffStopped(acts: seq<Action>, s: State, t: nat)
    requires Run(START, acts, s) && t < |s.created|
    ensures s.created[t].cancelled <==> EverCancelled(acts, t)
    decreases |acts|
  {
    if acts != [] {
      hide Run, TableInv, WireInv, Next, Enabled;
      var (before, a) := (acts[..|acts| - 1], acts[|acts| - 1]);
      var m := RunLast(START, acts, s);
      RunIds(before, m);
      RunIds(acts, s);
      assert Run(START, before, m);
      ReachableInv(m);
      assert acts == before + [a] && acts[..|before|] == before;
      CancelsLater(before, a, t);
      TaskIdsStay(m, a);
      if t < |m.created| {
        CancelledIffStopped(before, m, t);
        StepCancels(m, a, t);
      } else {
        FreshTask(m, a);
        assert forall k :: 0 <= k <= |before| ==> |TaskIds(acts[..k])| <= t by {
          forall k | 0 <= k <= |before| ensures |TaskIds(acts[..k])| <= t {
            TaskIdsGrow(acts, k, |before|);
          }
        }
      }
    }
  }

  lemma FreshTask(s: State, a: Action)
    requires Enabled(s, a) && |Next(s, a).created| > |s.created|
    ensures !Next(s, a).created[|s.created|].cancelled
  {
  }

  lemma {:induction false} TaskIdsGrow(acts: seq<Action>, i: nat, j: nat)
    requires i <= j <= |acts|
    ensures |TaskIds(acts[..i])| <= |TaskIds(acts[..j])|
    decreases j
  {
    if i < j {
      TaskIdsGrow(acts, i, j - 1);
      assert acts[..j][..j - 1] == acts[..j - 1];
    }
  }

  /** While the endpoint runs, the table holds an id if and only if a task of that id was not stopped since. */
  lemma {:induction false} TableHoldsUnstopped(acts: seq<Action>, s: State, id: OpId)
    requires Run(START, acts, s) && s.loop != Ended
    ensures id in s.tasks <==> exists t :: 0 <= t < |s.created| && s.created[t].id == id && !s.created[t].cancelled
  {
    ReachableInv(s);
    TableIsLive(acts, s);
    if id in s.tasks {
      assert s.created[s.tasks[id]].id == id;
    } else {
      assert forall t :: 0 <= t < |s.created| && !s.created[t].cancelled ==> Live(s, t);
    }
  }

  lemma {:induction false} TableIsLive(acts: seq<Action>, s: State)
    requires Run(START, acts, s)
    ensures s.loop != Ended ==> forall id :: id in s.tasks ==> Live(s, s.tasks[id])
    decreases |acts|
  {
    if acts != [] {
      hide Run, WireInv;
      var (before, a) := (acts[..|acts| - 1], acts[|acts| - 1]);
      var m := RunLast(START, acts, s);
      TableIsLive(before, m);
      assert Run(START, before, m);
      ReachableInv(m);
      LiveStays(m, a);
    }
  }

  lemma LiveStays(s: State, a: Action)
    requires TableInv(s) && Enabled(s, a)
    requires s.loop != Ended ==> forall id :: id in s.tasks ==> Live(s, s.tasks[id])
    ensures Next(s, a).loop != Ended ==> forall id :: id in Next(s, a).tasks ==> Live(Next(s, a), Next(s, a).tasks[id])
  {
    var n := Next(s, a);
    if n.loop != Ended && s.loop != Ended {
      forall id | id in n.tasks ensures Live(n, n.tasks[id]) {
        if id in s.tasks && n.tasks[id] == s.tasks[id] {
          assert s.created[s.tasks[id]].id == id;
        }
      }
    }
  }

  // ----- what the receive loop does -----

  /** A START is honoured if and only if no task of its id is left that was not stopped; otherwise it changes
      nothing. */
  lemma {:induction false} StartHonoured(acts: seq<Action>, s: State, id: OpId)
    requires Run(START, acts, s) && s.loop == Listening
    ensures var n := Next(s, ReceiveStart(id));
      if exists t :: 0 <= t < |s.created| && s.created[t].id == id && !s.created[t].cancelled then n == s
      else n == s.(loop := Subscribing(id))
  {
    TableHoldsUnstopped(acts, s, id);
  }

  /** What makes the endpoint leave its receive loop. */
  predicate Leaves(before: seq<Action>, a: Action) {
    || a in {ReceiveTerminate, ReceiveDisconnect, SubscriptionRaised, LeaveLoop}
    || (a == ReceiveInit && UntilDisconnect(before) != before)
  }

  ghost predicate LeavesAt(acts: seq<Action>, k: nat) {
    k < |acts| && Leaves(acts[..k], acts[k])
  }

  ghost predicate EverLeaves(acts: seq<Action>) {
    exists k: nat :: LeavesAt(acts, k)
  }

  lemma LeavesLater(before: seq<Action>, a: Action)
    ensures EverLeaves(before + [a]) <==> EverLeaves(before) || Leaves(before, a)
  {
    var acts := before + [a];
    assert acts[..|before|] == before;
    assert forall k :: 0 <= k < |before| ==> before[..k] == acts[..k] && before[k] == acts[k];
    forall k: nat | LeavesAt(before, k) ensures LeavesAt(acts, k) {}
    forall k: nat | LeavesAt(acts, k) && k < |before| ensures LeavesAt(before, k) {}
    if Leaves(before, a) {
      assert LeavesAt(acts, |before|);
    }
  }

  lemma {:induction false} StepLeaves(before: seq<Action>, s: State, a: Action)
    requires Enabled(s, a) && (s.connected <==> UntilDisconnect(before) == before)
    ensures Next(s, a).loop in {Leaving, Ended} <==> s.loop in {Leaving, Ended} || Leaves(before, a)
  {
    hide UntilDisconnect;
  }

  /** In every run the loop has been left if and only if the client terminated or was gone, a subscription
      raised, the loop noticed the disconnect, or an INIT came after it. A rejected subscription, for one,
      leaves the loop running. */
  lemma {:induction false} LoopLeft(acts: seq<Action>, s: State)
    requires Run(START, acts, s)
    ensures s.loop in {Leaving, Ended} <==> EverLeaves(acts)
    decreases |acts|
  {
    if acts != [] {
      hide Run, Next, Enabled, Leaves, EverLeaves, Sent;
      var (before, a) := (acts[..|acts| - 1], acts[|acts| - 1]);
      var m := RunLast(START, acts, s);
      LoopLeft(before, m);
      WireIsHistory(before, m);
      StepLeaves(before, m, a);
      LeavesLater(before, a);
      assert acts == before + [a];
    }
  }
}
