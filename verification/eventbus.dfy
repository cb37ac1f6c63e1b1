/** The orchestration bus (event_bus.rs): agent-keyed subscriptions, each with a
    queue of its own, against the log of everything emitted. */
module EventBus {
  import opened Options

  datatype Event =
    | AgentSpawned(agentId: string, parentOfAgent: Option<string>)
    | AgentCompleted(agentId: string, exitCode: Option<int>)
    | AgentFailed(agentId: string, error: string)
    | AgentArchived(agentId: string)
    | AgentThinking(agentId: string, content: string)
    | AgentToolCall(agentId: string, tool: string, status: string)
    | AgentMessage(agentId: string, content: string)
    | SubagentStarted(parentId: string, childId: string, name: string)
    | SubagentProgress(parentId: string, childId: string, progress: string)
    | SubagentCompleted(parentId: string, childId: string)
    | PermissionRequested(agentId: string, toolName: string, requestId: string)
    | HandoffRequested(from: string, to: string, reason: string)

  /** Every event but a handoff request is routed to one agent: its subject, or for
      subagent events the parent. */
  function Route(e: Event): Option<string> {
    match e
    case SubagentStarted(parent, _, _) => Some(parent)
    case SubagentProgress(parent, _, _) => Some(parent)
    case SubagentCompleted(parent, _) => Some(parent)
    case HandoffRequested(_, _, _) => None
    case _ => Some(e.agentId)
  }

  /** An agent is sent what it is the subject of, and what its subagents do as their
      parent; a child gets none of that, and handoff requests go to nobody. */
  lemma RoutedIff(e: Event, id: string)
    ensures Route(e) == Some(id) <==>
            || ((e.SubagentStarted? || e.SubagentProgress? || e.SubagentCompleted?) && e.parentId == id)
            || (!(e.SubagentStarted? || e.SubagentProgress? || e.SubagentCompleted? || e.HandoffRequested?) && e.agentId == id)
  {
  }

  /** Queue i belongs to the receiver that subscription i returned. */
  datatype State = State(subscribers: map<string, seq<nat>>, queues: seq<seq<Event>>)

  const EMPTY := State(map[], [])

  class Bus {
    var subscribers: map<string, seq<nat>>
    var queues: seq<seq<Event>>

    function Value(): State
      reads this
    {
      State(subscribers, queues)
    }

    constructor ()
      ensures Value() == EMPTY
    {
      subscribers, queues := map[], [];
    }

    method Subscribe(agentId: string) returns (rx: nat)
      modifies this
      ensures rx == |old(queues)|
      ensures Value() == Next(old(Value()), Subscribed(agentId))
    {
      rx := |queues|;
      queues := queues + [[]];
      var entry := Entry(subscribers, agentId);
      subscribers := subscribers[agentId := entry + [rx]];
    }

    /** Sends to the subscribers of the event's agent, one after the other. */
    method Emit(e: Event)
      requires Wired(Value())
      modifies this
      ensures Value() == Next(old(Value()), Emitted(e))
    {
      var id := Route(e);
      if id.Some? && id.value in subscribers {
        var senders := subscribers[id.value];
        ghost var before := queues;
        for k := 0 to |senders|
          invariant subscribers == old(subscribers)
          invariant queues == Delivered(before, senders[..k], e)
        {
          assert senders[..k + 1][..k] == senders[..k];
          DeliveredSize(before, senders[..k], e);
          var tx := senders[k];
          queues := queues[tx := queues[tx] + [e]];
        }
        assert senders[..|senders|] == senders;
      }
    }
  }

  function Entry(m: map<string, seq<nat>>, id: string): seq<nat> {
    if id in m then m[id] else []
  }

  ghost predicate InRange(txs: seq<nat>, n: nat) {
    forall k :: 0 <= k < |txs| ==> txs[k] < n
  }

  /** Senders point at queues that exist. */
  ghost predicate Wired(s: State) {
    forall id :: id in s.subscribers ==> InRange(s.subscribers[id], |s.queues|)
  }

  /** One copy of e on each of the queues listed. */
  function Delivered(queues: seq<seq<Event>>, txs: seq<nat>, e: Event): seq<seq<Event>>
  {
    if txs == [] then queues
    else
      var rest, tx := Delivered(queues, txs[..|txs| - 1], e), txs[|txs| - 1];
      if tx < |rest| then rest[tx := rest[tx] + [e]] else rest
  }

  lemma {:induction false} DeliveredSize(queues: seq<seq<Event>>, txs: seq<nat>, e: Event)
    ensures |Delivered(queues, txs, e)| == |queues|
  {
    if txs != [] {
      DeliveredSize(queues, txs[..|txs| - 1], e);
    }
  }

  // ---- Runs --------------------------------------------------------------

  datatype Step = Subscribed(agentId: string) | Emitted(event: Event)

  function Next(s: State, step: Step): State {
    match step
    case Subscribed(id) =>
      State(s.subscribers[id := Entry(s.subscribers, id) + [|s.queues|]], s.queues + [[]])
    case Emitted(e) =>
      var id := Route(e);
      if id.Some? then s.(queues := Delivered(s.queues, Entry(s.subscribers, id.value), e)) else s
  }

  function Exec(steps: seq<Step>): State {
    if steps == [] then EMPTY else Next(Exec(steps[..|steps| - 1]), steps[|steps| - 1])
  }

  /** The steps that subscribed, in order: subscription i returned receiver i. */
  function Subscriptions(steps: seq<Step>): seq<nat> {
    if steps == [] then []
    else
      var n := |steps| - 1;
      var before := Subscriptions(steps[..n]);
      if steps[n].Subscribed? then before + [n] else before
  }

  /** Everything emitted at or after step from and routed to id, in order. */
  function RoutedSince(steps: seq<Step>, id: string, from: nat): seq<Event> {
    if |steps| <= from then []
    else
      var n := |steps| - 1;
      var before := RoutedSince(steps[..n], id, from);
      if steps[n].Emitted? && Route(steps[n].event) == Some(id) then before + [steps[n].event] else before
  }

  /** What each queue must hold. */
  ghost predicate Faithful(steps: seq<Step>, s: State) {
    && |s.queues| == |Subscriptions(steps)|
    && (forall i :: 0 <= i < |s.queues| ==> QueueFaithful(steps, s, i))
    && Wired(s)
    && forall id :: id in s.subscribers ==> Increasing(s.subscribers[id])
  }

  ghost predicate Increasing(txs: seq<nat>) {
    forall j, k :: 0 <= j < k < |txs| ==> txs[j] < txs[k]
  }

  ghost predicate QueueFaithful(steps: seq<Step>, s: State, i: nat)
    requires i < |s.queues| == |Subscriptions(steps)|
  {
    var n := Subscriptions(steps)[i];
    && n < |steps| && steps[n].Subscribed?
    && (forall id :: i in Entry(s.subscribers, id) <==> id == steps[n].agentId)
    && s.queues[i] == RoutedSince(steps, steps[n].agentId, n + 1)
  }

  /** A delivery reaches each listed queue once and no other. */
  lemma {:induction false} DeliveredOnce(queues: seq<seq<Event>>, txs: seq<nat>, e: Event, i: nat)
    requires InRange(txs, |queues|) && Increasing(txs) && i < |queues|
    ensures |Delivered(queues, txs, e)| == |queues|
    ensures Delivered(queues, txs, e)[i] == if i in txs then queues[i] + [e] else queues[i]
  {
    if txs != [] {
      var front, tx := txs[..|txs| - 1], txs[|txs| - 1];
      assert txs == front + [tx];
      DeliveredOnce(queues, front, e, i);
      DeliveredSize(queues, front, e);
      assert tx !in front;
    }
  }

  lemma SubscribeFaithful(steps: seq<Step>, s: State, id: string)
    requires Faithful(steps, s)
    ensures Faithful(steps + [Subscribed(id)], Next(s, Subscribed(id)))
  {
    var all, t, n := steps + [Subscribed(id)], Next(s, Subscribed(id)), |steps|;
    assert all[..n] == steps;
    forall i | 0 <= i < |t.queues| ensures QueueFaithful(all, t, i) {
      if i < |s.queues| {
        assert QueueFaithful(steps, s, i);
        var m := Subscriptions(steps)[i];
        assert all[m] == steps[m];
        forall a ensures i in Entry(t.subscribers, a) <==> a == steps[m].agentId {
          assert i in Entry(t.subscribers, a) <==> i in Entry(s.subscribers, a);
        }
      } else {
        forall a ensures i in Entry(t.subscribers, a) <==> a == id {
          assert a in s.subscribers ==> InRange(s.subscribers[a], |s.queues|);
        }
      }
    }
  }

  lemma EmitFaithful(steps: seq<Step>, s: State, e: Event)
    requires Faithful(steps, s)
    ensures Faithful(steps + [Emitted(e)], Next(s, Emitted(e)))
  {
    var all, t, n := steps + [Emitted(e)], Next(s, Emitted(e)), |steps|;
    assert all[..n] == steps;
    var id := Route(e);
    if id.Some? {
      DeliveredSize(s.queues, Entry(s.subscribers, id.value), e);
    }
    forall i | 0 <= i < |t.queues| ensures QueueFaithful(all, t, i) {
      assert QueueFaithful(steps, s, i);
      var m := Subscriptions(steps)[i];
      assert all[m] == steps[m];
      if id.Some? {
        DeliveredOnce(s.queues, Entry(s.subscribers, id.value), e, i);
      }
    }
  }

  lemma {:induction false} RunsAreFaithful(steps: seq<Step>)
    ensures Faithful(steps, Exec(steps))
  {
    if steps != [] {
      var init, step := steps[..|steps| - 1], steps[|steps| - 1];
      RunsAreFaithful(init);
      assert steps == init + [step];
      match step
      case Subscribed(id) => SubscribeFaithful(init, Exec(init), id);
      case Emitted(e) => EmitFaithful(init, Exec(init), e);
    }
  }

  /** In every run the receiver of a subscription holds exactly the events emitted
      after it and routed to its agent, in order and once each. */
  lemma ReceiverHoldsItsEvents(steps: seq<Step>, i: nat)
    requires i < |Subscriptions(steps)|
    ensures var n := Subscriptions(steps)[i];
            && n < |steps| && steps[n].Subscribed? && i < |Exec(steps).queues|
            && Exec(steps).queues[i] == RoutedSince(steps, steps[n].agentId, n + 1)
  {
    RunsAreFaithful(steps);
    assert QueueFaithful(steps, Exec(steps), i);
  }
}
