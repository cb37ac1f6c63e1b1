/** The daemon's work handlers (main.rs, report.rs) over the stored rows
    (store.rs). Each handler runs under the one store lock, so it is one step. */
module Daemon {
  import opened Options
  import opened Work

  /** A stored row keeps the state text as written; Item.state is that raw state. */
  type Rows = map<string, Item>

  datatype AgentStatus =
    | Created | Starting | Running | Blocked | Completed | AgentFailed
    | Crashed | Stopped | Recovering | Replaced

  datatype Agent = Agent(status: AgentStatus, pid: Option<nat>, startedAt: Option<nat>, workspace: Option<string>)

  type Agents = map<string, Agent>

  datatype EventKind =
    | WorkSubmitted | WorkAccepted | WorkRejected | WorkVerified
    | TaskFailed | AgentProgress | AgentCompleted | AgentCrashed | PeerCrashed

  datatype Event = Event(subject: string, kind: EventKind)

  /** An accepted report answers the state it claims for the item. */
  datatype Response = Ok | Reported(newState: WorkState) | Error(kind: ErrorKind)

  datatype ErrorKind =
    | TransitionError | StoreError | NotFound | Precondition | InvalidRequest
    | InvalidTaskId | NotAssigned | CommitRequired | CommitNotFound

  /** What one handler call leaves behind. */
  datatype Reply = Reply(rows: Rows, appended: seq<Event>, response: Response)

  // ---- Rows --------------------------------------------------------------

  /** parse_work_state: every state outside the first seven reads back as Pending. */
  function ReadState(raw: WorkState): WorkState {
    match raw
    case Pending => Pending
    case InProgress => InProgress
    case Submitted => Submitted
    case Verified => Verified
    case Accepted => Accepted
    case NeedsRevision => NeedsRevision
    case Rejected => Rejected
    case _ => Pending
  }

  /** What survives a read: the states of the legacy protocol, and nothing staged. */
  lemma ReadBackIff(w: WorkState)
    ensures ReadState(w) == w <==>
            w == Pending || w == InProgress || w == Submitted || w == Verified || w == Accepted || w == NeedsRevision || w == Rejected
    ensures ReadState(w) != w ==> ReadState(w) == Pending
  {
  }

  function ReadItem(row: Item): Item {
    row.(state := ReadState(row.state))
  }

  // ---- The cargo checks behind a verify request --------------------------

  datatype Command = Fmt | Clippy | Test | Build

  datatype Profile = Full | Check | TestOnly | BuildOnly | Named(name: string)

  function Commands(p: Profile): seq<Command> {
    match p
    case Full => [Fmt, Clippy, Test, Build]
    case Check => [Fmt, Clippy, Test]
    case TestOnly => [Test]
    case BuildOnly => [Build]
    case Named(_) => []
  }

  datatype Exit = Code(code: int) | Signalled | NotStarted

  /** How each command would end, were it run now. */
  datatype Exits = Exits(fmt: Exit, clippy: Exit, test: Exit, build: Exit)

  function ExitOf(e: Exits, c: Command): Exit {
    match c
    case Fmt => e.fmt
    case Clippy => e.clippy
    case Test => e.test
    case Build => e.build
  }

  predicate Passes(p: Profile, e: Exits) {
    forall c :: c in Commands(p) ==> ExitOf(e, c) == Code(0)
  }

  function Failing(cs: seq<Command>, e: Exits): seq<Command> {
    if cs == [] then []
    else Failing(cs[..|cs| - 1], e) + if ExitOf(e, cs[|cs| - 1]) == Code(0) then [] else [cs[|cs| - 1]]
  }

  /** status.code(), with -1 for a process a signal ended. */
  function ReportedCode(x: Exit): int {
    match x
    case Code(n) => n
    case _ => -1
  }

  /** The exit code kept for command c, if it ran at all. */
  function KeptCode(cs: seq<Command>, c: Command, e: Exits): Option<int> {
    if cs == [] then None
    else if cs[|cs| - 1] == c && ExitOf(e, c) != NotStarted then Some(ReportedCode(ExitOf(e, c)))
    else KeptCode(cs[..|cs| - 1], c, e)
  }

  /** Tallies one more command run. */
  lemma TallyStep(cs: seq<Command>, c: Command, e: Exits)
    ensures Failing(cs + [c], e) == Failing(cs, e) + if ExitOf(e, c) == Code(0) then [] else [c]
    ensures forall k :: KeptCode(cs + [c], k, e) ==
                        if k == c && ExitOf(e, c) != NotStarted then Some(ReportedCode(ExitOf(e, c))) else KeptCode(cs, k, e)
  {
    assert (cs + [c])[..|cs|] == cs;
  }

  lemma {:induction false} PassesIffNoneFailing(cs: seq<Command>, e: Exits)
    ensures Failing(cs, e) == [] <==> forall c :: c in cs ==> ExitOf(e, c) == Code(0)
  {
    if cs != [] {
      var init, c := cs[..|cs| - 1], cs[|cs| - 1];
      assert cs == init + [c];
      PassesIffNoneFailing(init, e);
    }
  }

  method RunCommands(cs: seq<Command>, e: Exits)
    returns (allPass: bool, testCode: Option<int>, buildCode: Option<int>, diagnostics: seq<Command>)
    ensures allPass <==> forall c :: c in cs ==> ExitOf(e, c) == Code(0)
    ensures diagnostics == Failing(cs, e)
    ensures testCode == KeptCode(cs, Test, e) && buildCode == KeptCode(cs, Build, e)
  {
    allPass, testCode, buildCode, diagnostics := true, None, None, [];
    for i := 0 to |cs|
      invariant allPass <==> diagnostics == []
      invariant diagnostics == Failing(cs[..i], e)
      invariant testCode == KeptCode(cs[..i], Test, e) && buildCode == KeptCode(cs[..i], Build, e)
    {
      var c := cs[i];
      TallyStep(cs[..i], c, e);
      assert cs[..i + 1] == cs[..i] + [c];
      var exit := ExitOf(e, c);
      if exit != NotStarted {
        if c == Test {
          testCode := Some(ReportedCode(exit));
        } else if c == Build {
          buildCode := Some(ReportedCode(exit));
        }
      }
      if exit != Code(0) {
        allPass := false;
        diagnostics := diagnostics + [c];
      }
    }
    assert cs[..|cs|] == cs;
    PassesIffNoneFailing(cs, e);
  }

  /** The command if it did not exit 0. */
  function IfFailed(c: Command, x: Exit): seq<Command> {
    if x == Code(0) then [] else [c]
  }

  /** The exit code of a command, if it could be started; -1 if a signal ended it. */
  function CodeOf(x: Exit): Option<int> {
    match x
    case Code(n) => Some(n)
    case Signalled => Some(-1)
    case NotStarted => None
  }

  /** The profiles in terms of the exits alone: full demands all four, check all but
      the build, test and build one each, and a named profile demands nothing. */
  lemma PassesIff(p: Profile, e: Exits)
    ensures Passes(p, e) <==>
            match p
            case Full => e.fmt == e.clippy == e.test == e.build == Code(0)
            case Check => e.fmt == e.clippy == e.test == Code(0)
            case TestOnly => e.test == Code(0)
            case BuildOnly => e.build == Code(0)
            case Named(_) => true
  {
    match p
    case Full => assert Fmt in Commands(p) && Clippy in Commands(p) && Test in Commands(p) && Build in Commands(p);
    case Check => assert Fmt in Commands(p) && Clippy in Commands(p) && Test in Commands(p);
    case TestOnly => assert Test in Commands(p);
    case BuildOnly => assert Build in Commands(p);
    case Named(_) =>
  }

  lemma {:induction false} FailingConcat(a: seq<Command>, b: seq<Command>, e: Exits)
    ensures Failing(a + b, e) == Failing(a, e) + Failing(b, e)
  {
    if b == [] {
      assert a + b == a;
    } else {
      assert (a + b)[..|a + b| - 1] == a + b[..|b| - 1];
      FailingConcat(a, b[..|b| - 1], e);
    }
  }

  lemma FailingOne(c: Command, e: Exits)
    ensures Failing([c], e) == IfFailed(c, ExitOf(e, c))
  {
    assert [c][..0] == [];
  }

  lemma FailingOfProfile(p: Profile, e: Exits)
    ensures Failing(Commands(p), e) ==
            match p
            case Full => IfFailed(Fmt, e.fmt) + IfFailed(Clippy, e.clippy) + IfFailed(Test, e.test) + IfFailed(Build, e.build)
            case Check => IfFailed(Fmt, e.fmt) + IfFailed(Clippy, e.clippy) + IfFailed(Test, e.test)
            case TestOnly => IfFailed(Test, e.test)
            case BuildOnly => IfFailed(Build, e.build)
            case Named(_) => []
  {
    FailingOne(Fmt, e);
    FailingOne(Clippy, e);
    FailingOne(Test, e);
    FailingOne(Build, e);
    FailingConcat([Fmt], [Clippy], e);
    FailingConcat([Fmt] + [Clippy], [Test], e);
    FailingConcat([Fmt] + [Clippy] + [Test], [Build], e);
    assert [Fmt, Clippy, Test] == [Fmt] + [Clippy] + [Test];
    assert [Fmt, Clippy, Test, Build] == [Fmt] + [Clippy] + [Test] + [Build];
  }

  /** No profile names a command twice, so the code kept is that of its one run. */
  lemma {:induction false} KeptCodeIs(cs: seq<Command>, c: Command, e: Exits)
    ensures KeptCode(cs, c, e) == if c in cs then CodeOf(ExitOf(e, c)) else None
  {
    if cs != [] {
      assert cs == cs[..|cs| - 1] + [cs[|cs| - 1]];
      KeptCodeIs(cs[..|cs| - 1], c, e);
    }
  }

  /** Runs the commands of a profile: whether it passes, the diagnostics in order and
      the codes kept, all in terms of how the single commands exit. */
  method RunProfile(p: Profile, e: Exits)
    returns (allPass: bool, testCode: Option<int>, buildCode: Option<int>, diagnostics: seq<Command>)
    ensures allPass <==> Passes(p, e)
    ensures allPass <==>
            match p
            case Full => e.fmt == e.clippy == e.test == e.build == Code(0)
            case Check => e.fmt == e.clippy == e.test == Code(0)
            case TestOnly => e.test == Code(0)
            case BuildOnly => e.build == Code(0)
            case Named(_) => true
    ensures diagnostics ==
            match p
            case Full => IfFailed(Fmt, e.fmt) + IfFailed(Clippy, e.clippy) + IfFailed(Test, e.test) + IfFailed(Build, e.build)
            case Check => IfFailed(Fmt, e.fmt) + IfFailed(Clippy, e.clippy) + IfFailed(Test, e.test)
            case TestOnly => IfFailed(Test, e.test)
            case BuildOnly => IfFailed(Build, e.build)
            case Named(_) => []
    ensures testCode == if p.Full? || p.Check? || p.TestOnly? then CodeOf(e.test) else None
    ensures buildCode == if p.Full? || p.BuildOnly? then CodeOf(e.build) else None
  {
    allPass, testCode, buildCode, diagnostics := RunCommands(Commands(p), e);
    PassesIff(p, e);
    FailingOfProfile(p, e);
    KeptCodeIs(Commands(p), Test, e);
    KeptCodeIs(Commands(p), Build, e);
  }

  // ---- Handler specifications --------------------------------------------

  function SubmitReply(rows: Rows, id: string, e: Evidence, writeOk: bool): Reply {
    var i := if id in rows then ReadItem(rows[id]) else NewItem("cli").(state := InProgress);
    if !Submittable(i.state) then Reply(rows, [], Error(TransitionError))
    else if !writeOk then Reply(rows, [], Error(StoreError))
    else Reply(rows[id := SubmitItem(i, e)], [Event(id, WorkSubmitted)], Ok)
  }

  function ReviewReply(rows: Rows, id: string, verdict: string, note: string, writeOk: bool): Reply {
    if id !in rows then Reply(rows, [], Error(NotFound))
    else
      var i := ReadItem(rows[id]);
      if verdict == "accept" then
        if i.state != Verified then Reply(rows, [], Error(Precondition))
        else Reply(if writeOk then rows[id := i.(state := Accepted)] else rows, [Event(id, WorkAccepted)], Ok)
      else if verdict == "reject" then
        if !Rejectable(i.state) then Reply(rows, [], Error(TransitionError))
        else Reply(if writeOk then rows[id := RejectItem(i, "lead", note)] else rows, [Event(id, WorkRejected)], Ok)
      else Reply(rows, [], Error(InvalidRequest))
  }

  function VerifyReply(rows: Rows, id: string, profile: Option<Profile>, exits: Exits, writeOk: bool): Reply {
    if id !in rows then Reply(rows, [], Error(NotFound))
    else
      var i := ReadItem(rows[id]);
      if i.state != Submitted then Reply(rows, [], Error(Precondition))
      else if profile.None? then Reply(rows, [], Error(InvalidRequest))
      else
        var to := if Passes(profile.value, exits) then Verified else Submitted;
        Reply(if writeOk then rows[id := i.(state := to)] else rows, [Event(id, WorkVerified)], Ok)
  }

  datatype ReportStatus = ReportCompleted | ReportFailed | ReportProgress | ReportQuestion

  /** What git answers for the commit of a completed report, if it can be started. */
  datatype CommitCheck = GitNotRun | NoSuchCommit | Found(evidence: Evidence)

  predicate HasWorkspace(agents: Agents, peer: string) {
    peer in agents && agents[peer].workspace.Some?
  }

  function CompletedReply(rows: Rows, agents: Agents, id: string, commit: Option<string>, check: CommitCheck,
                          insertOk: bool, updateOk: bool): Reply
    requires id in rows
  {
    var i := ReadItem(rows[id]);
    if commit.None? then Reply(rows, [], Error(CommitRequired))
    else if !HasWorkspace(agents, i.peerId) then Reply(rows, [], Error(StoreError))
    else if check.GitNotRun? then Reply(rows, [], Error(StoreError))
    else if check.NoSuchCommit? then Reply(rows, [], Error(CommitNotFound))
    else if !insertOk then Reply(rows, [], Error(StoreError))
    else
      var written := rows[id := i.(evidence := Some(check.evidence))];
      if !Submittable(i.state) then Reply(written, [Event(i.peerId, WorkSubmitted)], Reported(Submitted))
      else if !CanTransition(i.state, Submitted) || !updateOk then Reply(written, [], Error(TransitionError))
      else Reply(written[id := written[id].(state := Submitted)], [Event(i.peerId, WorkSubmitted)], Reported(Submitted))
  }

  predicate CanFail(s: WorkState) {
    s == InProgress || s == Submitted || s == NeedsRevision || s == Executing || s == Verifying
  }

  /** A failed report tries to move an item exactly where the table knows a way to
      Failed, and from InProgress and Verifying, where it knows none. */
  lemma CanFailIff(s: WorkState)
    ensures CanFail(s) <==> (s != Failed && CanTransition(s, Failed)) || s == InProgress || s == Verifying
  {
  }

  /** Where a failure sends an item: back for revision, or Failed once exhausted. */
  function FailureTarget(i: Item): WorkState {
    if i.revision >= i.maxRevisions then Failed else NeedsRevision
  }

  function FailedReply(rows: Rows, id: string, updateOk: bool): Reply
    requires id in rows
  {
    var i := ReadItem(rows[id]);
    var to := FailureTarget(i);
    var event := Event(i.peerId, if to == Failed then TaskFailed else AgentProgress);
    if !CanFail(i.state) then Reply(rows, [event], Reported(to))
    else if !CanTransition(i.state, to) || !updateOk then Reply(rows, [], Error(TransitionError))
    else Reply(rows[id := rows[id].(state := to)], [event], Reported(to))
  }

  function ReportReply(rows: Rows, agents: Agents, id: string, status: Option<ReportStatus>, commit: Option<string>,
                       check: CommitCheck, insertOk: bool, updateOk: bool): Reply
  {
    if status.None? then Reply(rows, [], Error(InvalidRequest))
    else if id == "" then Reply(rows, [], Error(InvalidTaskId))
    else if id !in rows then Reply(rows, [], Error(NotFound))
    else if rows[id].peerId == "" then Reply(rows, [], Error(NotAssigned))
    else match status.value
      case ReportCompleted => CompletedReply(rows, agents, id, commit, check, insertOk, updateOk)
      case ReportFailed => FailedReply(rows, id, updateOk)
      case _ => Reply(rows, [Event(rows[id].peerId, AgentProgress)], Reported(ReadState(rows[id].state)))
  }

  // ---- The store object and the handlers ---------------------------------

  class Store {
    var rows: Rows
    var agents: Agents
    var events: seq<Event>

    constructor ()
      ensures rows == map[] && agents == map[] && events == []
    {
      rows, agents, events := map[], map[], [];
    }

    method AppendEvent(subject: string, kind: EventKind)
      modifies this`events
      ensures events == old(events) + [Event(subject, kind)]
    {
      events := events + [Event(subject, kind)];
    }

    method GetWorkItem(id: string) returns (r: Option<WorkItem>)
      ensures r.Some? <==> id in rows
      ensures r.Some? ==> fresh(r.value) && r.value.Value() == ReadItem(rows[id])
    {
      if id !in rows {
        return None;
      }
      var w := new WorkItem.Load(ReadItem(rows[id]));
      return Some(w);
    }

    /** INSERT OR REPLACE; writeOk says whether SQLite took it. */
    method InsertWorkItem(id: string, i: Item, writeOk: bool) returns (ok: bool)
      modifies this`rows
      ensures ok == writeOk
      ensures rows == if ok then old(rows)[id := i] else old(rows)
    {
      if writeOk {
        rows := rows[id := i];
      }
      ok := writeOk;
    }

    /** Optimistic update: legal by the table, and the raw state still as expected. */
    method UpdateWorkState(id: string, expected: WorkState, to: WorkState, writeOk: bool) returns (ok: bool)
      modifies this`rows
      ensures ok <==> writeOk && CanTransition(expected, to) && id in old(rows) && old(rows)[id].state == expected
      ensures rows == if ok then old(rows)[id := old(rows)[id].(state := to)] else old(rows)
    {
      if !CanTransition(expected, to) || !writeOk {
        return false;
      }
      if id in rows && rows[id].state == expected {
        rows := rows[id := rows[id].(state := to)];
        return true;
      }
      return false;
    }
  }

  method HandleSubmitWork(store: Store, id: string, e: Evidence, writeOk: bool) returns (r: Response)
    modifies store`rows, store`events
    ensures var reply := SubmitReply(old(store.rows), id, e, writeOk);
            r == reply.response && store.rows == reply.rows && store.events == old(store.events) + reply.appended
  {
    var found := store.GetWorkItem(id);
    var w: WorkItem;
    if found.Some? {
      w := found.value;
    } else {
      w := new WorkItem("cli");
      var t := w.Transition(InProgress);
      if t.Invalid? {
        return Error(TransitionError);
      }
    }
    var s := w.Submit(e);
    if s.Invalid? {
      return Error(TransitionError);
    }
    var ok := store.InsertWorkItem(id, w.Value(), writeOk);
    if !ok {
      return Error(StoreError);
    }
    store.AppendEvent(id, WorkSubmitted);
    return Ok;
  }

  method HandleReviewWork(store: Store, id: string, verdict: string, note: string, writeOk: bool) returns (r: Response)
    modifies store`rows, store`events
    ensures var reply := ReviewReply(old(store.rows), id, verdict, note, writeOk);
            r == reply.response && store.rows == reply.rows && store.events == old(store.events) + reply.appended
  {
    var found := store.GetWorkItem(id);
    if found.None? {
      return Error(NotFound);
    }
    var w := found.value;
    if verdict == "accept" {
      if w.state != Verified {
        return Error(Precondition);
      }
      var t := w.Transition(Accepted);
      if t.Invalid? {
        return Error(TransitionError);
      }
      var _ := store.InsertWorkItem(id, w.Value(), writeOk);
      store.AppendEvent(id, WorkAccepted);
      return Ok;
    } else if verdict == "reject" {
      var t := w.Reject("lead", note);
      if t.Invalid? {
        return Error(TransitionError);
      }
      var _ := store.InsertWorkItem(id, w.Value(), writeOk);
      store.AppendEvent(id, WorkRejected);
      return Ok;
    } else {
      return Error(InvalidRequest);
    }
  }

  method HandleVerifyWork(store: Store, id: string, profile: Option<Profile>, exits: Exits, writeOk: bool)
    returns (r: Response)
    modifies store`rows, store`events
    ensures var reply := VerifyReply(old(store.rows), id, profile, exits, writeOk);
            r == reply.response && store.rows == reply.rows && store.events == old(store.events) + reply.appended
  {
    var found := store.GetWorkItem(id);
    if found.None? {
      return Error(NotFound);
    }
    var w := found.value;
    if w.state != Submitted {
      return Error(Precondition);
    }
    if profile.None? {
      return Error(InvalidRequest);
    }
    var allPass, _, _, _ := RunProfile(profile.value, exits);
    var t := w.Transition(if allPass then Verified else Submitted);
    if t.Invalid? {
      return Error(TransitionError);
    }
    var _ := store.InsertWorkItem(id, w.Value(), writeOk);
    store.AppendEvent(id, WorkVerified);
    return Ok;
  }

  method HandleCompleted(store: Store, id: string, w: WorkItem, commit: Option<string>, check: CommitCheck,
                         insertOk: bool, updateOk: bool)
    returns (r: Response)
    requires id in store.rows && w.Value() == ReadItem(store.rows[id])
    modifies store`rows, store`events
    ensures var reply := CompletedReply(old(store.rows), store.agents, id, commit, check, insertOk, updateOk);
            r == reply.response && store.rows == reply.rows && store.events == old(store.events) + reply.appended
  {
    if commit.None? {
      return Error(CommitRequired);
    }
    if !HasWorkspace(store.agents, w.peerId) {
      return Error(StoreError);
    }
    if check.GitNotRun? {
      return Error(StoreError);
    }
    if check.NoSuchCommit? {
      return Error(CommitNotFound);
    }
    var ok := store.InsertWorkItem(id, w.Value().(evidence := Some(check.evidence)), insertOk);
    if !ok {
      return Error(StoreError);
    }
    if w.state == InProgress || w.state == NeedsRevision {
      ok := store.UpdateWorkState(id, w.state, Submitted, updateOk);
      if !ok {
        return Error(TransitionError);
      }
    }
    store.AppendEvent(w.peerId, WorkSubmitted);
    return Reported(Submitted);
  }

  method HandleFailed(store: Store, id: string, w: WorkItem, updateOk: bool) returns (r: Response)
    requires id in store.rows && w.Value() == ReadItem(store.rows[id])
    modifies store`rows, store`events
    ensures var reply := FailedReply(old(store.rows), id, updateOk);
            r == reply.response && store.rows == reply.rows && store.events == old(store.events) + reply.appended
  {
    var to := if w.revision >= w.maxRevisions then Failed else NeedsRevision;
    if CanFail(w.state) {
      var ok := store.UpdateWorkState(id, w.state, to, updateOk);
      if !ok {
        return Error(TransitionError);
      }
    }
    store.AppendEvent(w.peerId, if to == Failed then TaskFailed else AgentProgress);
    return Reported(to);
  }

  method HandleReport(store: Store, id: string, status: Option<ReportStatus>, commit: Option<string>,
                      check: CommitCheck, insertOk: bool, updateOk: bool)
    returns (r: Response)
    modifies store`rows, store`events
    ensures var reply := ReportReply(old(store.rows), store.agents, id, status, commit, check, insertOk, updateOk);
            r == reply.response && store.rows == reply.rows && store.events == old(store.events) + reply.appended
  {
    if status.None? {
      return Error(InvalidRequest);
    }
    if id == "" {
      return Error(InvalidTaskId);
    }
    var found := store.GetWorkItem(id);
    if found.None? {
      return Error(NotFound);
    }
    var w := found.value;
    if w.peerId == "" {
      return Error(NotAssigned);
    }
    match status.value {
      case ReportCompleted => r := HandleCompleted(store, id, w, commit, check, insertOk, updateOk);
      case ReportFailed => r := HandleFailed(store, id, w, updateOk);
      case _ =>
        store.AppendEvent(w.peerId, AgentProgress);
        return Reported(w.state);
    }
  }
}
