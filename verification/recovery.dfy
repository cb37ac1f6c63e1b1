/** Restart recovery (recovery.rs): find agents whose process is gone, move their
    work items on, mark them Crashed. */
module Recovery {
  import opened Options
  import opened Work
  import opened Daemon
  import opened Sequences

  /** The process table at restart: pid -> start time, unknown when unreadable;
      and the agents whose liveness query fails in SQLite. */
  datatype Processes = Processes(alive: map<nat, Option<nat>>, failedQueries: set<string>)

  predicate PidAlive(procs: Processes, pid: Option<nat>) {
    pid.Some? && pid.value in procs.alive
  }

  /** is_agent_alive: the pid exists and, where a start time was recorded, it matches. */
  predicate IsAgentAlive(procs: Processes, a: Agent) {
    PidAlive(procs, a.pid) && (a.startedAt.Some? ==> procs.alive[a.pid.value] == a.startedAt)
  }

  /** What the dead-agent filter takes for alive. When the query fails, the
      fallback negates the pid check. */
  predicate SeemsAlive(procs: Processes, id: string, a: Agent) {
    if id in procs.failedQueries then !PidAlive(procs, a.pid) else IsAgentAlive(procs, a)
  }

  /** The statuses under which an agent is expected to have a process. */
  predicate Attached(s: AgentStatus) {
    s == Running || s == Blocked || s == Starting
  }

  predicate SeemsDead(agents: Agents, procs: Processes, id: string) {
    id in agents && Attached(agents[id].status) && !SeemsAlive(procs, id, agents[id])
  }

  function DeadAgents(agents: Agents, procs: Processes): set<string> {
    set a | a in agents.Keys && SeemsDead(agents, procs, a)
  }

  /** Who is found dead, in terms of status, process table and query alone. */
  lemma DeadIff(agents: Agents, procs: Processes, id: string)
    ensures id in DeadAgents(agents, procs) <==>
            && id in agents && agents[id].status in {Running, Blocked, Starting}
            && var a := agents[id];
               var exists_ := a.pid.Some? && a.pid.value in procs.alive;
               var same := a.startedAt == None || (exists_ && procs.alive[a.pid.value] == a.startedAt);
               if id in procs.failedQueries then exists_ else !(exists_ && same)
  {
  }

  /** Recovery moves a Submitted item held by a dead agent, if the write succeeds. */
  predicate Moves(id: string, row: Item, dead: set<string>, lost: set<string>) {
    row.peerId in dead && row.state == Submitted && id !in lost
  }

  function RecoveredRow(id: string, row: Item, dead: set<string>, lost: set<string>): Item {
    if Moves(id, row, dead, lost) then row.(state := FailureTarget(row)) else row
  }

  function Moved(rows: Rows, dead: set<string>, lost: set<string>): set<string> {
    set id | id in rows.Keys && Moves(id, rows[id], dead, lost)
  }

  function RecoveredRows(rows: Rows, dead: set<string>, lost: set<string>): Rows {
    map id | id in rows :: RecoveredRow(id, rows[id], dead, lost)
  }

  function RecoveredAgent(id: string, a: Agent, dead: set<string>, lost: set<string>): Agent {
    if id in dead && id !in lost then a.(status := Crashed) else a
  }

  function RecoveredAgents(agents: Agents, dead: set<string>, lost: set<string>): Agents {
    map a | a in agents :: RecoveredAgent(a, agents[a], dead, lost)
  }

  // ---- The recovery procedure --------------------------------------------

  /** A SELECT without ORDER BY lists every key once, in an order of its own. */
  ghost predicate Lists(order: seq<string>, keys: set<string>) {
    NoDup(order) && Elems(order) == keys
  }

  /** The agents that seem dead, in the order listed. */
  function DeadList(order: seq<string>, agents: Agents, procs: Processes): seq<string> {
    if order == [] then []
    else
      var init, a := DeadList(order[..|order| - 1], agents, procs), order[|order| - 1];
      if SeemsDead(agents, procs, a) then init + [a] else init
  }

  lemma {:induction false} DeadListIs(order: seq<string>, agents: Agents, procs: Processes)
    requires NoDup(order)
    ensures var dead := DeadList(order, agents, procs);
            NoDup(dead) && forall a :: a in dead <==> a in order && SeemsDead(agents, procs, a)
  {
    if order != [] {
      var init, a := order[..|order| - 1], order[|order| - 1];
      assert order == init + [a] && a !in init;
      DeadListIs(init, agents, procs);
    }
  }

  lemma {:induction false} DeadListConcat(a: seq<string>, b: seq<string>, agents: Agents, procs: Processes)
    ensures DeadList(a + b, agents, procs) == DeadList(a, agents, procs) + DeadList(b, agents, procs)
  {
    if b == [] {
      assert a + b == a;
    } else {
      assert (a + b)[..|a + b| - 1] == a + b[..|b| - 1];
      DeadListConcat(a, b[..|b| - 1], agents, procs);
    }
  }

  /** A dead agent stands in the list where it stands in the listing. */
  lemma DeadListAt(front: seq<string>, a: string, back: seq<string>, agents: Agents, procs: Processes)
    ensures DeadList(front + [a] + back, agents, procs) ==
            DeadList(front, agents, procs) + (if a in DeadAgents(agents, procs) then [a] else []) + DeadList(back, agents, procs)
  {
    assert [a][..0] == [];
    DeadListConcat(front, [a], agents, procs);
    DeadListConcat(front + [a], back, agents, procs);
  }

  /** The events so far, with one more if this item is moved. */
  function MovedNext(added: seq<Event>, id: string, row: Item, dead: set<string>, lost: set<string>): seq<Event> {
    if Moves(id, row, dead, lost) then added + [Event(row.peerId, AgentProgress)] else added
  }

  /** One event for each item moved, in the order listed. */
  function MoveEvents(order: seq<string>, rows: Rows, dead: set<string>, lost: set<string>): seq<Event> {
    if order == [] then []
    else
      var init, id := MoveEvents(order[..|order| - 1], rows, dead, lost), order[|order| - 1];
      if id in rows then MovedNext(init, id, rows[id], dead, lost) else init
  }

  /** Each dead agent is reported as PeerCrashed, and by mark_exit before that. */
  function CrashedNext(added: seq<Event>, a: string, lost: set<string>): seq<Event> {
    if a in lost then added + [Event(a, PeerCrashed)] else added + [Event(a, AgentCrashed), Event(a, PeerCrashed)]
  }

  function CrashEvents(dead: seq<string>, lost: set<string>): seq<Event> {
    if dead == [] then []
    else CrashedNext(CrashEvents(dead[..|dead| - 1], lost), dead[|dead| - 1], lost)
  }

  method FindDeadAgents(store: Store, order: seq<string>, procs: Processes) returns (dead: seq<string>)
    requires Lists(order, store.agents.Keys)
    ensures dead == DeadList(order, store.agents, procs)
    ensures Lists(dead, DeadAgents(store.agents, procs))
    ensures forall a :: a in dead ==> a in store.agents && store.agents[a].status in {Running, Blocked, Starting}
  {
    dead := [];
    for i := 0 to |order|
      invariant dead == DeadList(order[..i], store.agents, procs)
    {
      assert order[..i + 1][..i] == order[..i];
      var a := order[i];
      assert a in Elems(order);
      if Attached(store.agents[a].status) && !SeemsAlive(procs, a, store.agents[a]) {
        dead := dead + [a];
      }
    }
    assert order[..|order|] == order;
    DeadListIs(order, store.agents, procs);
    assert forall a :: a in order <==> a in Elems(order);
  }

  /** One item. InProgress is attempted too, but the table refuses it. */
  method RecoverWorkItem(store: Store, id: string, dead: set<string>, lost: set<string>)
    requires id in store.rows
    modifies store`rows, store`events
    ensures store.rows == old(store.rows)[id := RecoveredRow(id, old(store.rows)[id], dead, lost)]
    ensures store.events ==
            if Moves(id, old(store.rows)[id], dead, lost)
            then old(store.events) + [Event(old(store.rows)[id].peerId, AgentProgress)] else old(store.events)
  {
    var work := ReadItem(store.rows[id]);
    if work.peerId in dead && (work.state == InProgress || work.state == Submitted) {
      var target := if work.revision >= work.maxRevisions then Failed else NeedsRevision;
      var ok := store.UpdateWorkState(id, work.state, target, id !in lost);
      if ok {
        store.AppendEvent(work.peerId, AgentProgress);
      }
    }
  }

  /** Rows and new events after the first n of the items listed. */
  ghost predicate RecoveredUpTo(order: seq<string>, n: nat, rows0: Rows, rows: Rows, added: seq<Event>,
                                dead: set<string>, lost: set<string>)
    requires n <= |order|
  {
    && rows.Keys == rows0.Keys
    && (forall k :: 0 <= k < |order| && order[k] in rows0 ==>
          rows[order[k]] == if k < n then RecoveredRow(order[k], rows0[order[k]], dead, lost) else rows0[order[k]])
    && added == MoveEvents(order[..n], rows0, dead, lost)
  }

  lemma MoveEventsSnoc(order: seq<string>, n: nat, rows: Rows, dead: set<string>, lost: set<string>)
    requires n < |order| && order[n] in rows
    ensures MoveEvents(order[..n + 1], rows, dead, lost) ==
            MovedNext(MoveEvents(order[..n], rows, dead, lost), order[n], rows[order[n]], dead, lost)
  {
    assert order[..n + 1][..n] == order[..n];
  }

  /** One more item: its row and its event together. */
  lemma RecoverNext(order: seq<string>, n: nat, rows0: Rows, rows: Rows, added: seq<Event>, dead: set<string>, lost: set<string>)
    requires n < |order| && NoDup(order) && Elems(order) == rows0.Keys
    requires RecoveredUpTo(order, n, rows0, rows, added, dead, lost)
    ensures order[n] in rows
    ensures var id := order[n];
            RecoveredUpTo(order, n + 1, rows0, rows[id := RecoveredRow(id, rows[id], dead, lost)],
                          MovedNext(added, id, rows[id], dead, lost), dead, lost)
  {
    assert order[n] in Elems(order);
    MoveEventsSnoc(order, n, rows0, dead, lost);
  }

  lemma AllRecovered(order: seq<string>, rows0: Rows, rows: Rows, added: seq<Event>, dead: set<string>, lost: set<string>)
    requires Elems(order) == rows0.Keys && RecoveredUpTo(order, |order|, rows0, rows, added, dead, lost)
    ensures rows == RecoveredRows(rows0, dead, lost)
    ensures added == MoveEvents(order, rows0, dead, lost)
  {
    assert order[..|order|] == order;
    forall id | id in rows0 ensures rows[id] == RecoveredRow(id, rows0[id], dead, lost) {
      assert id in Elems(order);
      var k :| 0 <= k < |order| && order[k] == id;
    }
  }

  method RecoverWorkItems(store: Store, order: seq<string>, dead: set<string>, lost: set<string>)
    requires Lists(order, store.rows.Keys)
    modifies store`rows, store`events
    ensures store.rows == RecoveredRows(old(store.rows), dead, lost)
    ensures store.events == old(store.events) + MoveEvents(order, old(store.rows), dead, lost)
  {
    ghost var rows0, added := store.rows, [];
    for i := 0 to |order|
      invariant RecoveredUpTo(order, i, rows0, store.rows, added, dead, lost)
      invariant store.events == old(store.events) + added
    {
      RecoverNext(order, i, rows0, store.rows, added, dead, lost);
      added := MovedNext(added, order[i], store.rows[order[i]], dead, lost);
      RecoverWorkItem(store, order[i], dead, lost);
    }
    AllRecovered(order, rows0, store.rows, added, dead, lost);
  }

  /** mark_exit: only an attached agent changes. An unknown agent or a failed write is
      an error, an agent that has left its process already is not. */
  method MarkExit(store: Store, id: string, exitOk: bool, writeOk: bool) returns (ok: bool)
    modifies store`agents, store`events
    ensures ok <==> id in old(store.agents) && writeOk
    ensures store.agents != old(store.agents) <==> ok && old(store.agents)[id].status in {Running, Blocked, Starting}
    ensures var to := if exitOk then Completed else Crashed;
            store.agents ==
            if ok && Attached(old(store.agents)[id].status) then old(store.agents)[id := old(store.agents)[id].(status := to)]
            else old(store.agents)
    ensures var kind := if exitOk then AgentCompleted else AgentCrashed;
            store.events ==
            if ok && Attached(old(store.agents)[id].status) then old(store.events) + [Event(id, kind)] else old(store.events)
  {
    if id !in store.agents || !writeOk {
      return false;
    }
    if Attached(store.agents[id].status) {
      store.agents := store.agents[id := store.agents[id].(status := if exitOk then Completed else Crashed)];
      store.AppendEvent(id, if exitOk then AgentCompleted else AgentCrashed);
    }
    return true;
  }

  /** Crashes one agent and reports it twice: once from mark_exit, once as PeerCrashed. */
  method MarkAgent(store: Store, a: string, writeOk: bool)
    requires a in store.agents && Attached(store.agents[a].status)
    modifies store`agents, store`events
    ensures store.agents == if writeOk then old(store.agents)[a := old(store.agents)[a].(status := Crashed)] else old(store.agents)
    ensures store.events ==
            if writeOk then old(store.events) + [Event(a, AgentCrashed), Event(a, PeerCrashed)]
            else old(store.events) + [Event(a, PeerCrashed)]
  {
    var _ := MarkExit(store, a, false, writeOk);
    store.AppendEvent(a, PeerCrashed);
  }

  function MarkedNext(agents: Agents, a: string, lost: set<string>): Agents
    requires a in agents
  {
    if a in lost then agents else agents[a := agents[a].(status := Crashed)]
  }

  /** Agents and new events after the first n of the dead were marked. */
  ghost predicate MarkedUpTo(dead: seq<string>, n: nat, agents0: Agents, agents: Agents, added: seq<Event>, lost: set<string>)
    requires n <= |dead|
  {
    && agents.Keys == agents0.Keys
    && (forall k :: 0 <= k < |dead| && dead[k] in agents0 ==>
          agents[dead[k]] == if k < n && dead[k] !in lost then agents0[dead[k]].(status := Crashed) else agents0[dead[k]])
    && (forall a :: a in agents0 && a !in dead ==> agents[a] == agents0[a])
    && added == CrashEvents(dead[..n], lost)
  }

  lemma MarkNext(dead: seq<string>, n: nat, agents0: Agents, agents: Agents, added: seq<Event>, lost: set<string>)
    requires n < |dead| && NoDup(dead) && dead[n] in agents
    requires MarkedUpTo(dead, n, agents0, agents, added, lost)
    ensures agents[dead[n]] == agents0[dead[n]]
    ensures MarkedUpTo(dead, n + 1, agents0, MarkedNext(agents, dead[n], lost), CrashedNext(added, dead[n], lost), lost)
  {
    assert dead[..n + 1][..n] == dead[..n];
  }

  lemma AllMarked(dead: seq<string>, agents0: Agents, agents: Agents, added: seq<Event>, lost: set<string>)
    requires MarkedUpTo(dead, |dead|, agents0, agents, added, lost)
    ensures agents == RecoveredAgents(agents0, Elems(dead), lost) && added == CrashEvents(dead, lost)
  {
    assert dead[..|dead|] == dead;
    forall a | a in agents0 ensures agents[a] == RecoveredAgent(a, agents0[a], Elems(dead), lost) {
      if a in dead {
        var k :| 0 <= k < |dead| && dead[k] == a;
      }
    }
  }

  method MarkCrashed(store: Store, dead: seq<string>, lost: set<string>)
    requires NoDup(dead) && forall a :: a in dead ==> a in store.agents && Attached(store.agents[a].status)
    modifies store`agents, store`events
    ensures store.agents == RecoveredAgents(old(store.agents), Elems(dead), lost)
    ensures store.events == old(store.events) + CrashEvents(dead, lost)
  {
    ghost var agents0, added := store.agents, [];
    for i := 0 to |dead|
      invariant MarkedUpTo(dead, i, agents0, store.agents, added, lost)
      invariant store.events == old(store.events) + added
    {
      assert dead[i] in dead;
      MarkNext(dead, i, agents0, store.agents, added, lost);
      added := CrashedNext(added, dead[i], lost);
      MarkAgent(store, dead[i], dead[i] !in lost);
    }
    AllMarked(dead, agents0, store.agents, added, lost);
  }

  /** The listing orders are SQLite's; lostRows and lostAgents name the writes that fail. */
  method RecoverOnRestart(store: Store, procs: Processes, agentOrder: seq<string>, rowOrder: seq<string>,
                          lostRows: set<string>, lostAgents: set<string>)
    requires Lists(agentOrder, store.agents.Keys) && Lists(rowOrder, store.rows.Keys)
    modifies store
    ensures var dead := DeadAgents(old(store.agents), procs);
            && store.rows == RecoveredRows(old(store.rows), dead, lostRows)
            && store.agents == RecoveredAgents(old(store.agents), dead, lostAgents)
            && store.events == old(store.events) + MoveEvents(rowOrder, old(store.rows), dead, lostRows)
                               + CrashEvents(DeadList(agentOrder, old(store.agents), procs), lostAgents)
  {
    var dead := FindDeadAgents(store, agentOrder, procs);
    assert forall a :: a in dead ==> a in Elems(dead);
    RecoverWorkItems(store, rowOrder, Elems(dead), lostRows);
    MarkCrashed(store, dead, lostAgents);
  }

  /** The item is a Submitted one of a dead agent, its write is stored, and the event
      reports progress of its peer. */
  predicate MovesWith(id: string, rows: Rows, dead: set<string>, lost: set<string>, e: Event) {
    && id in rows && rows[id].peerId in dead && rows[id].state == Submitted && id !in lost
    && e == Event(rows[id].peerId, AgentProgress)
  }

  function MoversWith(order: seq<string>, rows: Rows, dead: set<string>, lost: set<string>, e: Event): set<string> {
    set id | id in order && MovesWith(id, rows, dead, lost, e)
  }

  lemma MoversSnoc(order: seq<string>, id: string, rows: Rows, dead: set<string>, lost: set<string>, e: Event)
    requires id !in order
    ensures var before, after := MoversWith(order, rows, dead, lost, e), MoversWith(order + [id], rows, dead, lost, e);
            |after| == if MovesWith(id, rows, dead, lost, e) then |before| + 1 else |before|
  {
    var before, after := MoversWith(order, rows, dead, lost, e), MoversWith(order + [id], rows, dead, lost, e);
    if MovesWith(id, rows, dead, lost, e) {
      assert after == before + {id};
    } else {
      assert after == before;
    }
  }

  lemma MovedNextCount(added: seq<Event>, id: string, rows: Rows, dead: set<string>, lost: set<string>, e: Event)
    requires id in rows
    ensures multiset(MovedNext(added, id, rows[id], dead, lost))[e] ==
            if MovesWith(id, rows, dead, lost, e) then multiset(added)[e] + 1 else multiset(added)[e]
  {
  }

  /** Whatever the order, an event is appended once for each moved item it is about. */
  lemma {:induction false} MoveEventCount(order: seq<string>, rows: Rows, dead: set<string>, lost: set<string>, e: Event)
    requires NoDup(order)
    ensures multiset(MoveEvents(order, rows, dead, lost))[e] == |MoversWith(order, rows, dead, lost, e)|
  {
    if order != [] {
      var init, id := order[..|order| - 1], order[|order| - 1];
      assert order == init + [id] && id !in init;
      MoveEventCount(init, rows, dead, lost, e);
      MoversSnoc(init, id, rows, dead, lost, e);
      if id in rows {
        MovedNextCount(MoveEvents(init, rows, dead, lost), id, rows, dead, lost, e);
      }
    }
  }

  lemma {:induction false} MoveEventsConcat(a: seq<string>, b: seq<string>, rows: Rows, dead: set<string>, lost: set<string>)
    ensures MoveEvents(a + b, rows, dead, lost) == MoveEvents(a, rows, dead, lost) + MoveEvents(b, rows, dead, lost)
  {
    if b == [] {
      assert a + b == a;
    } else {
      assert (a + b)[..|a + b| - 1] == a + b[..|b| - 1];
      MoveEventsConcat(a, b[..|b| - 1], rows, dead, lost);
    }
  }

  /** And it stands where the item stands in the listing. */
  lemma MoveEventsAt(front: seq<string>, id: string, back: seq<string>, rows: Rows, dead: set<string>, lost: set<string>)
    requires id in rows
    ensures MoveEvents(front + [id] + back, rows, dead, lost) ==
            MoveEvents(front, rows, dead, lost)
            + (if rows[id].peerId in dead && rows[id].state == Submitted && id !in lost then [Event(rows[id].peerId, AgentProgress)] else [])
            + MoveEvents(back, rows, dead, lost)
  {
    assert [id][..0] == [];
    MoveEventsConcat(front, [id], rows, dead, lost);
    MoveEventsConcat(front + [id], back, rows, dead, lost);
  }

  lemma {:induction false} CrashEventsConcat(a: seq<string>, b: seq<string>, lost: set<string>)
    ensures CrashEvents(a + b, lost) == CrashEvents(a, lost) + CrashEvents(b, lost)
  {
    if b == [] {
      assert a + b == a;
    } else {
      assert (a + b)[..|a + b| - 1] == a + b[..|b| - 1];
      CrashEventsConcat(a, b[..|b| - 1], lost);
    }
  }

  /** Each dead agent is reported in its place in the listing, as AgentCrashed if its
      mark is stored, and as PeerCrashed right after that in any case. */
  lemma CrashEventsAt(front: seq<string>, a: string, back: seq<string>, lost: set<string>)
    ensures CrashEvents(front + [a] + back, lost) ==
            CrashEvents(front, lost)
            + (if a in lost then [Event(a, PeerCrashed)] else [Event(a, AgentCrashed), Event(a, PeerCrashed)])
            + CrashEvents(back, lost)
  {
    assert [a][..0] == [];
    CrashEventsConcat(front, [a], lost);
    CrashEventsConcat(front + [a], back, lost);
  }

  // ---- What recovery achieves --------------------------------------------

  /** Row by row: exactly the Submitted items of dead agents whose write is not lost
      move, to Failed once their revisions are used up and to NeedsRevision before;
      InProgress items stay where they are. */
  lemma RecoveryOutcome(rows: Rows, dead: set<string>, lost: set<string>, id: string)
    requires id in rows
    ensures var before, after := rows[id], RecoveredRows(rows, dead, lost)[id];
            && (before.peerId in dead && before.state == Submitted && id !in lost ==>
                  after.state == if before.revision < before.maxRevisions then NeedsRevision else Failed)
            && (before.peerId !in dead || before.state != Submitted || id in lost <==> after == before)
            && after == before.(state := after.state)
  {
  }

  /** Agent by agent: exactly those Running, Blocked or Starting that are found dead,
      and whose mark is stored, become Crashed; nothing but the status ever changes. */
  lemma CrashOutcome(agents: Agents, procs: Processes, lost: set<string>, id: string)
    requires id in agents
    ensures var before, after := agents[id], RecoveredAgents(agents, DeadAgents(agents, procs), lost)[id];
            after == if id in DeadAgents(agents, procs) && id !in lost
                     then Agent(Crashed, before.pid, before.startedAt, before.workspace) else before
    ensures id in DeadAgents(agents, procs) ==> agents[id].status in {Running, Blocked, Starting}
  {
    DeadIff(agents, procs, id);
  }

  /** An agent still counts as attached after recovery exactly when it did before
      and its process looked alive, or the crash mark was lost. */
  lemma AttachedAfterRecovery(agents: Agents, procs: Processes, lost: set<string>, a: string)
    requires a in agents
    ensures var after := RecoveredAgents(agents, DeadAgents(agents, procs), lost);
            after[a].status in {Running, Blocked, Starting} <==>
            agents[a].status in {Running, Blocked, Starting} && (SeemsAlive(procs, a, agents[a]) || a in lost)
  {
  }

  /** No agent stays Running, Blocked or Starting without its process if and only if no
      such agent has its crash mark lost, or a failed query while its pid is gone. */
  lemma NoDeadAttached(agents: Agents, procs: Processes, lost: set<string>)
    ensures var after := RecoveredAgents(agents, DeadAgents(agents, procs), lost);
            (forall a :: a in after && after[a].status in {Running, Blocked, Starting} ==> IsAgentAlive(procs, after[a])) <==>
            forall a :: a in agents && agents[a].status in {Running, Blocked, Starting} && !IsAgentAlive(procs, agents[a]) ==>
              a !in lost && (a in procs.failedQueries ==> agents[a].pid.Some? && agents[a].pid.value in procs.alive)
  {
    var after := RecoveredAgents(agents, DeadAgents(agents, procs), lost);
    forall a | a in agents
      ensures a in after && after[a].pid == agents[a].pid && after[a].startedAt == agents[a].startedAt
      ensures after[a].status in {Running, Blocked, Starting} <==>
              agents[a].status in {Running, Blocked, Starting} && (SeemsAlive(procs, a, agents[a]) || a in lost)
    {
      AttachedAfterRecovery(agents, procs, lost, a);
    }
  }

  /** Every attached agent with its process stays attached if and only if none of them
      had a failed query, save for those whose crash mark was lost. */
  lemma LiveStayAttached(agents: Agents, procs: Processes, lost: set<string>)
    ensures var after := RecoveredAgents(agents, DeadAgents(agents, procs), lost);
            (forall a :: a in agents && agents[a].status in {Running, Blocked, Starting} && IsAgentAlive(procs, agents[a]) ==>
               after[a].status == agents[a].status) <==>
            forall a :: a in agents && agents[a].status in {Running, Blocked, Starting} && IsAgentAlive(procs, agents[a]) ==>
              (a in procs.failedQueries ==> a in lost)
  {
    forall a | a in agents && agents[a].status in {Running, Blocked, Starting} && IsAgentAlive(procs, agents[a])
      ensures RecoveredAgents(agents, DeadAgents(agents, procs), lost)[a].status == agents[a].status <==>
              (a in procs.failedQueries ==> a in lost)
    {
      CrashOutcome(agents, procs, lost, a);
      DeadIff(agents, procs, a);
    }
  }

  /** A failed query turns the verdict round: of two attached agents, the one with
      a running process is crashed and the one without survives. */
  lemma FailedQueryInverts()
    ensures var procs := Processes(map[7 := None], {"up", "down"});
            var agents := map["up" := Agent(Running, Some(7), None, None), "down" := Agent(Running, Some(8), None, None)];
            DeadAgents(agents, procs) == {"up"}
  {
    var procs := Processes(map[7 := None], {"up", "down"});
    var agents: Agents := map["up" := Agent(Running, Some(7), None, None), "down" := Agent(Running, Some(8), None, None)];
    assert SeemsAlive(procs, "down", agents["down"]);
    assert !SeemsAlive(procs, "up", agents["up"]);
  }

  /** Under the same process table a second recovery finds only the agents whose crash
      mark was lost. */
  lemma SecondDead(agents: Agents, procs: Processes, lost: set<string>)
    ensures var dead := DeadAgents(agents, procs);
            DeadAgents(RecoveredAgents(agents, dead, lost), procs) == dead * lost
  {
    var dead := DeadAgents(agents, procs);
    var agents' := RecoveredAgents(agents, dead, lost);
    forall a ensures a in DeadAgents(agents', procs) <==> a in dead * lost {
      if a in agents {
        assert agents'[a] == RecoveredAgent(a, agents[a], dead, lost);
      }
    }
  }

  /** And it moves exactly the items whose write was lost together with the mark of
      their peer: once the mark is stored, an item whose write was lost is stranded. */
  lemma SecondMoves(rows: Rows, dead: set<string>, lostRows: set<string>, lostAgents: set<string>)
    ensures Moved(RecoveredRows(rows, dead, lostRows), dead * lostAgents, {}) ==
            set id | id in rows.Keys && id in lostRows && rows[id].state == Submitted && rows[id].peerId in dead * lostAgents
  {
  }

  lemma {:induction false} NobodyDead(order: seq<string>, agents: Agents, procs: Processes)
    requires DeadAgents(agents, procs) == {}
    ensures DeadList(order, agents, procs) == []
  {
    if order != [] {
      NobodyDead(order[..|order| - 1], agents, procs);
      assert order[|order| - 1] !in DeadAgents(agents, procs);
    }
  }

  lemma {:induction false} NothingMoved(order: seq<string>, rows: Rows, lost: set<string>)
    ensures MoveEvents(order, rows, {}, lost) == []
  {
    if order != [] {
      NothingMoved(order[..|order| - 1], rows, lost);
    }
  }

  /** So with no mark lost a second recovery changes no row and no agent and appends
      no event, whatever the listing orders. */
  lemma SecondRecovery(rows: Rows, agents: Agents, procs: Processes, lostRows: set<string>, lostAgents: set<string>,
                       agentOrder: seq<string>, rowOrder: seq<string>)
    requires DeadAgents(agents, procs) !! lostAgents
    ensures var dead := DeadAgents(agents, procs);
            var rows', agents' := RecoveredRows(rows, dead, lostRows), RecoveredAgents(agents, dead, lostAgents);
            var dead' := DeadAgents(agents', procs);
            && RecoveredRows(rows', dead', {}) == rows' && RecoveredAgents(agents', dead', {}) == agents'
            && MoveEvents(rowOrder, rows', dead', {}) + CrashEvents(DeadList(agentOrder, agents', procs), {}) == []
  {
    var dead := DeadAgents(agents, procs);
    var rows', agents' := RecoveredRows(rows, dead, lostRows), RecoveredAgents(agents, dead, lostAgents);
    SecondDead(agents, procs, lostAgents);
    assert DeadAgents(agents', procs) == {};
    assert RecoveredRows(rows', {}, {}) == rows';
    assert RecoveredAgents(agents', {}, {}) == agents';
    NothingMoved(rowOrder, rows', {});
    NobodyDead(agentOrder, agents', procs);
  }
}
