/** Provider-native subagents (subagent_tracker.rs): which are active, what is
    reported about them, and which tool names raise a guard violation. */
module Sidechain {
  // ---- Delegation-shaped tool names --------------------------------------

  const DENY_STEMS: seq<string> := [
    "agent", "subagent", "task", "workflow", "cron", "schedul", "worktree",
    "delegate", "spawn", "dispatch", "handoff", "remote", "sendmessage", "monitor"]

  predicate OccursAt(s: string, sub: string, i: nat) {
    i + |sub| <= |s| && s[i..i + |sub|] == sub
  }

  predicate Contains(s: string, sub: string) {
    exists i :: 0 <= i <= |s| && OccursAt(s, sub, i)
  }

  predicate IsAsciiAlphanumeric(c: char) {
    '0' <= c <= '9' || 'A' <= c <= 'Z' || 'a' <= c <= 'z'
  }

  function Lower(c: char): char {
    if 'A' <= c <= 'Z' then c - 'A' + 'a' else c
  }

  /** The letters and digits of a name, in lower case. */
  function Normalize(s: string): string {
    if s == "" then ""
    else
      var front, c := Normalize(s[..|s| - 1]), s[|s| - 1];
      if IsAsciiAlphanumeric(c) then front + [Lower(c)] else front
  }

  predicate IsPassthrough(toolName: string) {
    "mcp__" <= toolName
  }

  predicate IsDelegationShaped(toolName: string) {
    !IsPassthrough(toolName) &&
    exists k :: 0 <= k < |DENY_STEMS| && Contains(Normalize(toolName), DENY_STEMS[k])
  }

  lemma {:induction false} NormalizeConcat(a: string, b: string)
    ensures Normalize(a + b) == Normalize(a) + Normalize(b)
  {
    if b == "" {
      assert a + b == a;
    } else {
      var n := |b| - 1;
      NormalizeConcat(a, b[..n]);
      assert (a + b)[..|a + b| - 1] == a + b[..n];
      AppendAssoc(Normalize(a), Normalize(b[..n]), Lower(b[n]));
    }
  }

  lemma AppendAssoc(a: string, b: string, c: char)
    ensures a + b + [c] == a + (b + [c])
  {
  }

  /** Normalising keeps substrings: what a name contains, its normal form contains. */
  lemma NormalizeKeepsContained(s: string, sub: string)
    requires Contains(s, sub)
    ensures Contains(Normalize(s), Normalize(sub))
  {
    var i :| 0 <= i <= |s| && OccursAt(s, sub, i);
    var front, back := s[..i], s[i + |sub|..];
    assert s == front + sub + back;
    NormalizeConcat(front + sub, back);
    NormalizeConcat(front, sub);
    MiddleContained(Normalize(front), Normalize(sub), Normalize(back));
  }

  lemma MiddleContained(a: string, b: string, c: string)
    ensures Contains(a + b + c, b)
  {
    assert OccursAt(a + b + c, b, |a|);
  }

  lemma ContainedTransitive(s: string, t: string, u: string)
    requires Contains(s, t) && Contains(t, u)
    ensures Contains(s, u)
  {
    var i :| 0 <= i <= |s| && OccursAt(s, t, i);
    var j :| 0 <= j <= |t| && OccursAt(t, u, j);
    var k := i + j;
    forall x | 0 <= x < |u| ensures s[k + x] == u[x] {
      assert u[x] == t[j..j + |u|][x] == t[j + x];
      assert t[j + x] == s[i..i + |t|][j + x];
    }
    assert s[k..k + |u|] == u;
    assert OccursAt(s, u, k);
  }

  /** A name of letters and digits only is just put in lower case. */
  lemma {:induction false} NormalizeLetters(s: string)
    requires forall i :: 0 <= i < |s| ==> IsAsciiAlphanumeric(s[i])
    ensures |Normalize(s)| == |s| && forall i :: 0 <= i < |s| ==> Normalize(s)[i] == Lower(s[i])
  {
    if s != "" {
      NormalizeLetters(s[..|s| - 1]);
    }
  }

  /** Character by character: digits and small letters stay, capitals become small, and
      everything else goes. With NormalizeConcat this is all there is to it. */
  lemma NormalizeOne(c: char)
    ensures Normalize([c]) ==
            if '0' <= c <= '9' || 'a' <= c <= 'z' then [c]
            else if 'A' <= c <= 'Z' then [c - 'A' + 'a']
            else ""
  {
    assert [c][..0] == "";
    assert Normalize([c][..0]) == "";
  }

  /** Stem by stem; "subagent" denies nothing that "agent" does not. */
  lemma ShapedIff(toolName: string)
    ensures var n := Normalize(toolName);
            IsDelegationShaped(toolName) <==>
            !("mcp__" <= toolName) &&
            (|| Contains(n, "agent") || Contains(n, "task") || Contains(n, "workflow") || Contains(n, "cron")
             || Contains(n, "schedul") || Contains(n, "worktree") || Contains(n, "delegate") || Contains(n, "spawn")
             || Contains(n, "dispatch") || Contains(n, "handoff") || Contains(n, "remote")
             || Contains(n, "sendmessage") || Contains(n, "monitor"))
  {
    var n := Normalize(toolName);
    if Contains(n, DENY_STEMS[1]) {
      assert OccursAt("subagent", "agent", 3);
      ContainedTransitive(n, "subagent", "agent");
    }
    assert Contains(n, DENY_STEMS[0]) == Contains(n, "agent");
    assert Contains(n, DENY_STEMS[2]) == Contains(n, "task");
    assert Contains(n, DENY_STEMS[3]) == Contains(n, "workflow");
    assert Contains(n, DENY_STEMS[4]) == Contains(n, "cron");
    assert Contains(n, DENY_STEMS[5]) == Contains(n, "schedul");
    assert Contains(n, DENY_STEMS[6]) == Contains(n, "worktree");
    assert Contains(n, DENY_STEMS[7]) == Contains(n, "delegate");
    assert Contains(n, DENY_STEMS[8]) == Contains(n, "spawn");
    assert Contains(n, DENY_STEMS[9]) == Contains(n, "dispatch");
    assert Contains(n, DENY_STEMS[10]) == Contains(n, "handoff");
    assert Contains(n, DENY_STEMS[11]) == Contains(n, "remote");
    assert Contains(n, DENY_STEMS[12]) == Contains(n, "sendmessage");
    assert Contains(n, DENY_STEMS[13]) == Contains(n, "monitor");
    assert |DENY_STEMS| == 14;
  }

  // ---- Which tool calls start a subagent ---------------------------------

  datatype Provider = Claude | Codex | OpenCode

  predicate Starts(p: Provider, toolName: string) {
    match p
    case Claude => toolName == "Task" || toolName == "Agent"
    case Codex => Contains(toolName, "subAgent") || Contains(toolName, "collabAgent")
    case OpenCode => toolName == "task" || toolName == "subtask"
  }

  lemma SelfContained(s: string)
    ensures Contains(s, s)
  {
    assert OccursAt(s, s, 0);
  }

  lemma MarkerHasStem(marker: string, k: nat)
    requires k < |DENY_STEMS| && Contains(Normalize(marker), DENY_STEMS[k])
    ensures forall name :: Contains(name, marker) && !IsPassthrough(name) ==> IsDelegationShaped(name)
  {
    forall name | Contains(name, marker) && !IsPassthrough(name) ensures IsDelegationShaped(name) {
      NormalizeKeepsContained(name, marker);
      ContainedTransitive(Normalize(name), Normalize(marker), DENY_STEMS[k]);
    }
  }

  lemma MarkerShapes(marker: string, lower: string, k: nat)
    requires k < |DENY_STEMS| && |lower| == |marker|
    requires forall i :: 0 <= i < |marker| ==> IsAsciiAlphanumeric(marker[i]) && lower[i] == Lower(marker[i])
    requires Contains(lower, DENY_STEMS[k])
    ensures forall name :: Contains(name, marker) && !IsPassthrough(name) ==> IsDelegationShaped(name)
  {
    NormalizeLetters(marker);
    assert Normalize(marker) == lower;
    MarkerHasStem(marker, k);
  }

  lemma SubAgentShaped(name: string)
    requires Contains(name, "subAgent") && !IsPassthrough(name)
    ensures IsDelegationShaped(name)
  {
    assert DENY_STEMS[0] == "agent" && OccursAt("subagent", "agent", 3);
    MarkerShapes("subAgent", "subagent", 0);
  }

  lemma CollabAgentShaped(name: string)
    requires Contains(name, "collabAgent") && !IsPassthrough(name)
    ensures IsDelegationShaped(name)
  {
    assert DENY_STEMS[0] == "agent" && OccursAt("collabagent", "agent", 6);
    MarkerShapes("collabAgent", "collabagent", 0);
  }

  lemma NoPassthrough(name: string)
    requires name != "" && name[0] != 'm'
    ensures !IsPassthrough(name)
  {
    assert "mcp__"[0] == 'm';
  }

  lemma WholeNameShaped(name: string, lower: string, k: nat)
    requires k < |DENY_STEMS| && |lower| == |name| && name != "" && name[0] != 'm'
    requires forall i :: 0 <= i < |name| ==> IsAsciiAlphanumeric(name[i]) && lower[i] == Lower(name[i])
    requires Contains(lower, DENY_STEMS[k])
    ensures IsDelegationShaped(name)
  {
    NoPassthrough(name);
    SelfContained(name);
    MarkerShapes(name, lower, k);
  }

  lemma TaskShaped()
    ensures IsDelegationShaped("Task") && IsDelegationShaped("task")
  {
    assert DENY_STEMS[2] == "task";
    SelfContained("task");
    var name := "Task";
    assert name[0] == 'T' && name[1] == 'a' && name[2] == 's' && name[3] == 'k';
    WholeNameShaped(name, "task", 2);
    WholeNameShaped("task", "task", 2);
  }

  lemma SubtaskShaped()
    ensures IsDelegationShaped("subtask")
  {
    assert DENY_STEMS[2] == "task" && OccursAt("subtask", "task", 3);
    WholeNameShaped("subtask", "subtask", 2);
  }

  lemma AgentShaped()
    ensures IsDelegationShaped("Agent")
  {
    assert DENY_STEMS[0] == "agent";
    SelfContained("agent");
    var name := "Agent";
    assert name[0] == 'A' && name[1] == 'g' && name[2] == 'e' && name[3] == 'n' && name[4] == 't';
    WholeNameShaped(name, "agent", 0);
  }

  /** Whatever starts a subagent is delegation-shaped, unless its name carries the
      mcp__ prefix; and only Codex lets such a name start one. */
  lemma StartersAreShaped(p: Provider, toolName: string)
    requires Starts(p, toolName)
    ensures IsDelegationShaped(toolName) <==> !IsPassthrough(toolName)
    ensures IsPassthrough(toolName) ==> p.Codex?
  {
    match p
    case Claude => TaskShaped(); AgentShaped();
    case OpenCode => TaskShaped(); SubtaskShaped();
    case Codex =>
      if !IsPassthrough(toolName) {
        if Contains(toolName, "subAgent") {
          SubAgentShaped(toolName);
        } else {
          CollabAgentShaped(toolName);
        }
      }
  }

  // ---- The tracker -------------------------------------------------------

  datatype AgentEvent =
    | ToolCallStart(callId: string, toolName: string)
    | ToolCallComplete(callId: string)
    | ToolCallFailed(callId: string)
    | GuardViolation(toolName: string, callId: string)
    | SubagentStarted(id: string)
    | SubagentCompleted(id: string, failed: bool)
    | OtherEvent

  predicate Opens(p: Provider, e: AgentEvent, id: string) {
    e.ToolCallStart? && e.callId == id && Starts(p, e.toolName)
  }

  /** Only Claude's failures close; every provider's completions do. */
  predicate Closes(p: Provider, e: AgentEvent, id: string) {
    (e.ToolCallComplete? && e.callId == id) || (e.ToolCallFailed? && e.callId == id && p.Claude?)
  }

  function NextActive(active: set<string>, p: Provider, e: AgentEvent): set<string> {
    if e.ToolCallStart? && Starts(p, e.toolName) then active + {e.callId}
    else if e.ToolCallComplete? || (e.ToolCallFailed? && p.Claude?) then active - {e.callId}
    else active
  }

  function Emitted(active: set<string>, p: Provider, e: AgentEvent): seq<AgentEvent> {
    match e
    case ToolCallStart(id, name) =>
      if IsDelegationShaped(name) then
        if Starts(p, name) then [GuardViolation(name, id), SubagentStarted(id)] else [GuardViolation(name, id)]
      else if Starts(p, name) then [SubagentStarted(id)] else []
    case ToolCallComplete(id) => if id in active then [SubagentCompleted(id, false)] else []
    case ToolCallFailed(id) => if id in active && p.Claude? then [SubagentCompleted(id, true)] else []
    case _ => []
  }

  /** Which calls are reported as the start of a subagent, provider by provider, and
      which as a violation: the shaped ones, whatever the provider. */
  lemma EmittedIff(active: set<string>, p: Provider, e: AgentEvent, id: string, name: string)
    ensures SubagentStarted(id) in Emitted(active, p, e) <==>
            e.ToolCallStart? && e.callId == id &&
            (match p
             case Claude => e.toolName == "Task" || e.toolName == "Agent"
             case Codex => Contains(e.toolName, "subAgent") || Contains(e.toolName, "collabAgent")
             case OpenCode => e.toolName == "task" || e.toolName == "subtask")
    ensures GuardViolation(name, id) in Emitted(active, p, e) <==> e == ToolCallStart(id, name) && IsDelegationShaped(name)
  {
  }

  class SidechainTracker {
    var active: set<string>

    constructor ()
      ensures active == {}
    {
      active := {};
    }

    method HandleEvent(p: Provider, e: AgentEvent) returns (events: seq<AgentEvent>)
      modifies this
      ensures active == NextActive(old(active), p, e)
      ensures events == Emitted(old(active), p, e)
    {
      events := [];
      if e.ToolCallStart? {
        if IsDelegationShaped(e.toolName) {
          events := events + [GuardViolation(e.toolName, e.callId)];
        }
        if Starts(p, e.toolName) {
          active := active + {e.callId};
          events := events + [SubagentStarted(e.callId)];
        }
      }
      if e.ToolCallComplete? {
        if e.callId in active {
          events := events + [SubagentCompleted(e.callId, false)];
          active := active - {e.callId};
        }
      }
      if p.Claude? && e.ToolCallFailed? {
        if e.callId in active {
          events := events + [SubagentCompleted(e.callId, true)];
          active := active - {e.callId};
        }
      }
    }
  }

  // ---- Whole streams -----------------------------------------------------

  datatype Labelled = Labelled(provider: Provider, event: AgentEvent)

  function ActiveAfter(stream: seq<Labelled>): set<string> {
    if stream == [] then {}
    else
      var x := stream[|stream| - 1];
      NextActive(ActiveAfter(stream[..|stream| - 1]), x.provider, x.event)
  }

  function Output(stream: seq<Labelled>): seq<AgentEvent> {
    if stream == [] then []
    else
      var init, x := stream[..|stream| - 1], stream[|stream| - 1];
      Output(init) + Emitted(ActiveAfter(init), x.provider, x.event)
  }

  /** Started at i and not closed since. */
  ghost predicate OpenSince(stream: seq<Labelled>, id: string, i: nat) {
    && i < |stream| && Opens(stream[i].provider, stream[i].event, id)
    && forall j :: i < j < |stream| ==> !Closes(stream[j].provider, stream[j].event, id)
  }

  /** For every stream, in any mix of providers: active is exactly the ids started
      and not closed since. */
  lemma {:induction false} ActiveIsOpen(stream: seq<Labelled>, id: string)
    ensures id in ActiveAfter(stream) <==> exists i: nat :: OpenSince(stream, id, i)
  {
    if stream != [] {
      var n := |stream| - 1;
      var init, x := stream[..n], stream[n];
      ActiveIsOpen(init, id);
      if Opens(x.provider, x.event, id) {
        assert OpenSince(stream, id, n);
      } else if Closes(x.provider, x.event, id) {
        assert forall i: nat :: i < n ==> !OpenSince(stream, id, i);
      } else {
        forall i: nat ensures OpenSince(stream, id, i) <==> OpenSince(init, id, i) {
        }
      }
    }
  }

  /** A completion is reported exactly when an active id is closed, as failed
      exactly when the call failed. */
  lemma CompletionsAreOfActive(stream: seq<Labelled>, x: Labelled, id: string, failed: bool)
    ensures SubagentCompleted(id, failed) in Emitted(ActiveAfter(stream), x.provider, x.event) <==>
            && (exists i: nat :: OpenSince(stream, id, i))
            && Closes(x.provider, x.event, id) && failed == x.event.ToolCallFailed?
  {
    ActiveIsOpen(stream, id);
  }

  /** Over a whole stream every SubagentStarted directly follows a GuardViolation for
      the same call, unless Codex started it under an mcp__ name. */
  lemma {:induction false} StartedAfterViolation(stream: seq<Labelled>, k: nat) returns (name: string)
    requires k < |Output(stream)| && Output(stream)[k].SubagentStarted?
    ensures var out := Output(stream);
            if IsPassthrough(name) then (exists i :: 0 <= i < |stream| && stream[i].provider.Codex? &&
                                           stream[i].event == ToolCallStart(out[k].id, name))
            else k > 0 && out[k - 1] == GuardViolation(name, out[k].id)
  {
    var n := |stream| - 1;
    var init, x := stream[..n], stream[n];
    if k < |Output(init)| {
      name := StartedAfterViolation(init, k);
      if IsPassthrough(name) {
        var i :| 0 <= i < |init| && init[i].provider.Codex? && init[i].event == ToolCallStart(Output(init)[k].id, name);
        assert stream[i] == init[i];
      }
    } else {
      var out := Emitted(ActiveAfter(init), x.provider, x.event);
      assert Output(stream)[k] == out[k - |Output(init)|];
      name := x.event.toolName;
      StartersAreShaped(x.provider, name);
      assert stream[n].event == ToolCallStart(Output(stream)[k].id, name);
    }
  }

  predicate Counts(e: AgentEvent, id: string, started: bool) {
    if started then e == SubagentStarted(id) else e.SubagentCompleted? && e.id == id
  }

  function Count(events: seq<AgentEvent>, id: string, started: bool): nat {
    if events == [] then 0
    else
      var e := events[|events| - 1];
      Count(events[..|events| - 1], id, started) + if Counts(e, id, started) then 1 else 0
  }

  lemma {:induction false} CountConcat(a: seq<AgentEvent>, b: seq<AgentEvent>, id: string, started: bool)
    ensures Count(a + b, id, started) == Count(a, id, started) + Count(b, id, started)
  {
    if b == [] {
      assert a + b == a;
    } else {
      assert (a + b)[..|a + b| - 1] == a + b[..|b| - 1];
      CountConcat(a, b[..|b| - 1], id, started);
    }
  }

  lemma CountOne(e: AgentEvent, id: string, started: bool)
    ensures Count([e], id, started) == if Counts(e, id, started) then 1 else 0
  {
    assert [e][..0] == [];
  }

  lemma CountPair(d: AgentEvent, e: AgentEvent, id: string, started: bool)
    ensures Count([d, e], id, started) == Count([d], id, started) + Count([e], id, started)
  {
    assert [d, e] == [d] + [e];
    CountConcat([d], [e], id, started);
  }

  lemma CountStart(active: set<string>, p: Provider, c: string, name: string, id: string, started: bool)
    ensures Count(Emitted(active, p, ToolCallStart(c, name)), id, started) == if started && c == id && Starts(p, name) then 1 else 0
  {
    CountOne(GuardViolation(name, c), id, started);
    CountOne(SubagentStarted(c), id, started);
    CountPair(GuardViolation(name, c), SubagentStarted(c), id, started);
  }

  lemma CountEmitted(active: set<string>, x: Labelled, id: string)
    ensures var out := Emitted(active, x.provider, x.event);
            && Count(out, id, true) == (if Opens(x.provider, x.event, id) then 1 else 0)
            && Count(out, id, false) == (if id in active && Closes(x.provider, x.event, id) then 1 else 0)
  {
    match x.event
    case ToolCallStart(c, name) =>
      CountStart(active, x.provider, c, name, id, true);
      CountStart(active, x.provider, c, name, id, false);
    case ToolCallComplete(c) =>
      CountOne(SubagentCompleted(c, false), id, true);
      CountOne(SubagentCompleted(c, false), id, false);
    case ToolCallFailed(c) =>
      CountOne(SubagentCompleted(c, true), id, true);
      CountOne(SubagentCompleted(c, true), id, false);
    case _ =>
  }

  /** No completion without a start of its own: completions of an id never outnumber
      its starts, and while it is active a start is still unanswered. */
  lemma {:induction false} CompletionsAreMatched(stream: seq<Labelled>, id: string)
    ensures Count(Output(stream), id, true) >= Count(Output(stream), id, false) + if id in ActiveAfter(stream) then 1 else 0
  {
    if stream != [] {
      var init, x := stream[..|stream| - 1], stream[|stream| - 1];
      CompletionsAreMatched(init, id);
      var out := Emitted(ActiveAfter(init), x.provider, x.event);
      CountConcat(Output(init), out, id, true);
      CountConcat(Output(init), out, id, false);
      CountEmitted(ActiveAfter(init), x, id);
    }
  }

  /** A failed call ends its subagent under Claude only: under the other providers
      it is neither reported nor forgotten. */
  lemma FailureLeaks(stream: seq<Labelled>, p: Provider, id: string)
    requires exists i: nat :: OpenSince(stream, id, i)
    ensures var x := Labelled(p, ToolCallFailed(id));
            (id in ActiveAfter(stream + [x]) <==> !p.Claude?) && (Emitted(ActiveAfter(stream), p, x.event) == [] <==> !p.Claude?)
  {
    ActiveIsOpen(stream, id);
    assert (stream + [Labelled(p, ToolCallFailed(id))])[..|stream|] == stream;
  }
}
