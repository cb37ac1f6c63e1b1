/** Whole runs of the work-item protocol: any interleaving of submissions,
    reviews, verifications, peer reports, restarts and agent-table changes. */
module Protocol {
  import opened Options
  import opened Work
  import opened Daemon
  import opened Recovery

  datatype State = State(rows: Rows, agents: Agents)

  /** One handler call or restart, with what the outside world answers to it. */
  datatype Step =
    | SubmitWork(id: string, evidence: Evidence, writeOk: bool)
    | ReviewWork(id: string, verdict: string, note: string, writeOk: bool)
    | VerifyWork(id: string, profile: Option<Profile>, exits: Exits, writeOk: bool)
    | ReportTask(id: string, status: Option<ReportStatus>, commit: Option<string>, check: CommitCheck, insertOk: bool, updateOk: bool)
    | Restart(procs: Processes, lostRows: set<string>, lostAgents: set<string>)
    | AgentsChange(agents: Agents)

  function NextRows(s: State, step: Step): Rows {
    match step
    case SubmitWork(id, e, ok) => SubmitReply(s.rows, id, e, ok).rows
    case ReviewWork(id, verdict, note, ok) => ReviewReply(s.rows, id, verdict, note, ok).rows
    case VerifyWork(id, profile, exits, ok) => VerifyReply(s.rows, id, profile, exits, ok).rows
    case ReportTask(id, status, commit, check, insertOk, updateOk) =>
      ReportReply(s.rows, s.agents, id, status, commit, check, insertOk, updateOk).rows
    case Restart(procs, lostRows, _) => RecoveredRows(s.rows, DeadAgents(s.agents, procs), lostRows)
    case AgentsChange(_) => s.rows
  }

  function Next(s: State, step: Step): State {
    State(NextRows(s, step),
          match step
          case Restart(procs, _, lostAgents) => RecoveredAgents(s.agents, DeadAgents(s.agents, procs), lostAgents)
          case AgentsChange(agents) => agents
          case _ => s.agents)
  }

  /** What a handler answers; restarts and agent changes have no caller. */
  function Answer(s: State, step: Step): Response {
    match step
    case SubmitWork(id, e, ok) => SubmitReply(s.rows, id, e, ok).response
    case ReviewWork(id, verdict, note, ok) => ReviewReply(s.rows, id, verdict, note, ok).response
    case VerifyWork(id, profile, exits, ok) => VerifyReply(s.rows, id, profile, exits, ok).response
    case ReportTask(id, status, commit, check, insertOk, updateOk) =>
      ReportReply(s.rows, s.agents, id, status, commit, check, insertOk, updateOk).response
    case _ => Ok
  }

  /** The events a handler appends; recovery's own are listed with it. */
  function Appended(s: State, step: Step): seq<Event> {
    match step
    case SubmitWork(id, e, ok) => SubmitReply(s.rows, id, e, ok).appended
    case ReviewWork(id, verdict, note, ok) => ReviewReply(s.rows, id, verdict, note, ok).appended
    case VerifyWork(id, profile, exits, ok) => VerifyReply(s.rows, id, profile, exits, ok).appended
    case ReportTask(id, status, commit, check, insertOk, updateOk) =>
      ReportReply(s.rows, s.agents, id, status, commit, check, insertOk, updateOk).appended
    case _ => []
  }

  function Exec(s: State, steps: seq<Step>): State {
    if steps == [] then s else Next(Exec(s, steps[..|steps| - 1]), steps[|steps| - 1])
  }

  /** The state after the first k steps. */
  function At(s: State, steps: seq<Step>, k: nat): State
    requires k <= |steps|
  {
    Exec(s, steps[..k])
  }

  lemma AtNext(s: State, steps: seq<Step>, k: nat)
    requires k < |steps|
    ensures At(s, steps, k + 1) == Next(At(s, steps, k), steps[k])
  {
    assert steps[..k + 1][..k] == steps[..k];
  }

  function StateOf(s: State, id: string): Option<WorkState> {
    if id in s.rows then Some(s.rows[id].state) else None
  }

  /** Rows as first inserted: no reject counted, no evidence, work not yet submitted. */
  ghost predicate Fresh(i: Item) {
    i.revision == 1 && i.evidence == None && (i.state == Pending || i.state == InProgress)
  }

  ghost predicate Initial(s: State) {
    forall id :: id in s.rows ==> Fresh(s.rows[id])
  }

  // ---- An invariant of every stored row ----------------------------------

  /** The largest revision number an item may reach without being rejected. */
  function Cap(i: Item): nat {
    if i.maxRevisions == 0 then 1 else i.maxRevisions
  }

  /** Under the largest limit there is the 32-bit revision wraps and never exceeds it. */
  ghost predicate Sound(i: Item) {
    && (if i.maxRevisions == U32_MAX then i.state != Rejected
        else 1 <= i.revision && if i.state == Rejected then i.revision == Cap(i) + 1 else i.revision <= Cap(i))
    && (i.state == Submitted || i.state == Verified || i.state == Accepted ==> i.evidence.Some?)
    && (i.state == Failed ==> i.revision >= i.maxRevisions)
    && (ReadState(i.state) == i.state || i.state == Failed)
  }

  ghost predicate AllSound(rows: Rows) {
    forall id :: id in rows ==> Sound(rows[id])
  }

  /** The review that rejects an item and is stored. */
  function Rejecting(s: State, step: Step): Option<string> {
    if step.ReviewWork? && step.verdict == "reject" && step.writeOk && step.id in s.rows && Rejectable(s.rows[step.id].state)
    then Some(step.id) else None
  }

  /** Rows stay, keep their limit, and only the rejected one bumps its revision. */
  ghost predicate Evolves(rows: Rows, rows': Rows, rejected: Option<string>) {
    && AllSound(rows')
    && (forall id :: id in rows ==> id in rows' && RevisionKept(rows[id], rows'[id], rejected == Some(id)))
    && (forall id :: id in rows' && id !in rows ==> rows'[id].revision == 1)
  }

  ghost predicate RevisionKept(before: Item, after: Item, bumped: bool) {
    after.maxRevisions == before.maxRevisions && after.revision == if bumped then Bump(before.revision) else before.revision
  }

  lemma SameRows(rows: Rows)
    requires AllSound(rows)
    ensures Evolves(rows, rows, None)
  {
  }

  lemma OneRow(rows: Rows, id: string, after: Item, bumped: bool)
    requires AllSound(rows) && Sound(after)
    requires if id in rows then RevisionKept(rows[id], after, bumped) else after.revision == 1
    ensures Evolves(rows, rows[id := after], if bumped then Some(id) else None)
  {
  }

  lemma RejectKeepsSound(i: Item, lead: string, note: string)
    requires Sound(i) && Rejectable(i.state)
    ensures Sound(RejectItem(i, lead, note)) && RevisionKept(i, RejectItem(i, lead, note), true)
  {
  }

  lemma SubmitEvolves(rows: Rows, id: string, e: Evidence, ok: bool)
    requires AllSound(rows)
    ensures Evolves(rows, SubmitReply(rows, id, e, ok).rows, None)
  {
    var i := if id in rows then ReadItem(rows[id]) else NewItem("cli").(state := InProgress);
    if Submittable(i.state) && ok {
      OneRow(rows, id, SubmitItem(i, e), false);
    } else {
      SameRows(rows);
    }
  }

  lemma ReviewEvolves(s: State, id: string, verdict: string, note: string, ok: bool)
    requires AllSound(s.rows)
    ensures Evolves(s.rows, ReviewReply(s.rows, id, verdict, note, ok).rows, Rejecting(s, ReviewWork(id, verdict, note, ok)))
  {
    SameRows(s.rows);
    if id in s.rows {
      var i := ReadItem(s.rows[id]);
      if verdict == "accept" && i.state == Verified {
        OneRow(s.rows, id, i.(state := Accepted), false);
      } else if verdict == "reject" && Rejectable(i.state) {
        RejectKeepsSound(i, "lead", note);
        OneRow(s.rows, id, RejectItem(i, "lead", note), true);
      }
    }
  }

  lemma VerifyEvolves(rows: Rows, id: string, profile: Option<Profile>, exits: Exits, ok: bool)
    requires AllSound(rows)
    ensures Evolves(rows, VerifyReply(rows, id, profile, exits, ok).rows, None)
  {
    SameRows(rows);
    if id in rows && rows[id].state == Submitted {
      OneRow(rows, id, rows[id].(state := Verified), false);
      OneRow(rows, id, rows[id].(state := Submitted), false);
    }
  }

  lemma CompletedEvolves(rows: Rows, agents: Agents, id: string, commit: Option<string>, check: CommitCheck,
                         insertOk: bool, updateOk: bool)
    requires AllSound(rows) && id in rows
    ensures Evolves(rows, CompletedReply(rows, agents, id, commit, check, insertOk, updateOk).rows, None)
  {
    SameRows(rows);
    if check.Found? {
      var i := ReadItem(rows[id]).(evidence := Some(check.evidence));
      OneRow(rows, id, i, false);
      if i.state == InProgress {
        OneRow(rows, id, i.(state := Submitted), false);
        assert rows[id := i][id := i.(state := Submitted)] == rows[id := i.(state := Submitted)];
      }
    }
  }

  lemma FailedEvolves(rows: Rows, id: string, updateOk: bool)
    requires AllSound(rows) && id in rows
    ensures Evolves(rows, FailedReply(rows, id, updateOk).rows, None)
  {
    SameRows(rows);
    if CanFail(rows[id].state) {
      OneRow(rows, id, rows[id].(state := FailureTarget(rows[id])), false);
    }
  }

  lemma ReportEvolves(s: State, id: string, status: Option<ReportStatus>, commit: Option<string>, check: CommitCheck,
                      insertOk: bool, updateOk: bool)
    requires AllSound(s.rows)
    ensures Evolves(s.rows, ReportReply(s.rows, s.agents, id, status, commit, check, insertOk, updateOk).rows, None)
  {
    SameRows(s.rows);
    if status.Some? && id in s.rows {
      match status.value
      case ReportCompleted => CompletedEvolves(s.rows, s.agents, id, commit, check, insertOk, updateOk);
      case ReportFailed => FailedEvolves(s.rows, id, updateOk);
      case _ =>
    }
  }

  lemma RecoveryEvolves(rows: Rows, dead: set<string>, lost: set<string>)
    requires AllSound(rows)
    ensures Evolves(rows, RecoveredRows(rows, dead, lost), None)
  {
  }

  /** Every step keeps every row sound; only a stored reject moves a revision
      number, by one; rows are never removed and keep their revision limit. */
  lemma StepEvolves(s: State, step: Step)
    requires AllSound(s.rows)
    ensures Evolves(s.rows, Next(s, step).rows, Rejecting(s, step))
  {
    match step
    case SubmitWork(id, e, ok) => SubmitEvolves(s.rows, id, e, ok);
    case ReviewWork(id, verdict, note, ok) => ReviewEvolves(s, id, verdict, note, ok);
    case VerifyWork(id, profile, exits, ok) => VerifyEvolves(s.rows, id, profile, exits, ok);
    case ReportTask(id, status, commit, check, insertOk, updateOk) =>
      ReportEvolves(s, id, status, commit, check, insertOk, updateOk);
    case Restart(procs, lostRows, _) => RecoveryEvolves(s.rows, DeadAgents(s.agents, procs), lostRows);
    case AgentsChange(_) => SameRows(s.rows);
  }

  /** In every run: an item outside Rejected has revision at most its cap, a
      Rejected one has exactly one more, work under or past review carries
      evidence, and Failed means the revisions were used up. */
  lemma {:induction false} RunsAreSound(s: State, steps: seq<Step>)
    requires Initial(s)
    ensures AllSound(Exec(s, steps).rows)
  {
    if steps != [] {
      RunsAreSound(s, steps[..|steps| - 1]);
      StepEvolves(Exec(s, steps[..|steps| - 1]), steps[|steps| - 1]);
    }
  }

  // ---- How many rejects succeed ------------------------------------------

  function RejectCount(s: State, steps: seq<Step>, id: string): nat {
    if steps == [] then 0
    else
      var init := steps[..|steps| - 1];
      Count(RejectCount(s, init, id), Exec(s, init), steps[|steps| - 1], id)
  }

  /** n rejects are what the revision says, modulo 2^32 under the largest limit. */
  predicate Counted(i: Item, n: nat) {
    i.revision == (1 + n) % 0x1_0000_0000 && (i.maxRevisions < U32_MAX ==> n == i.revision - 1)
  }

  lemma CountedKept(before: Item, after: Item, bumped: bool, n: nat)
    requires Counted(before, n) && RevisionKept(before, after, bumped)
    requires bumped ==> Sound(before) && Rejectable(before.state)
    ensures Counted(after, if bumped then n + 1 else n)
  {
  }

  ghost predicate CountedIn(rows: Rows, id: string, n: nat) {
    if id in rows then Counted(rows[id], n) else n == 0
  }

  function Count(n: nat, s: State, step: Step, id: string): nat {
    if Rejecting(s, step) == Some(id) then n + 1 else n
  }

  lemma EvolvesAt(s: State, step: Step, id: string)
    requires AllSound(s.rows)
    ensures id in s.rows ==>
            id in Next(s, step).rows && RevisionKept(s.rows[id], Next(s, step).rows[id], Rejecting(s, step) == Some(id))
    ensures id !in s.rows && id in Next(s, step).rows ==> Next(s, step).rows[id].revision == 1
  {
    StepEvolves(s, step);
  }

  lemma StepCounted(s: State, step: Step, id: string, n: nat)
    requires AllSound(s.rows) && CountedIn(s.rows, id, n)
    ensures CountedIn(Next(s, step).rows, id, Count(n, s, step, id))
  {
    EvolvesAt(s, step, id);
    if id in s.rows {
      CountedKept(s.rows[id], Next(s, step).rows[id], Rejecting(s, step) == Some(id), n);
    }
  }

  /** The revision is one more than the number of successful rejects, modulo 2^32;
      exactly one more below the largest limit. */
  lemma {:induction false} RejectsCounted(s: State, steps: seq<Step>, id: string)
    requires Initial(s)
    ensures CountedIn(Exec(s, steps).rows, id, RejectCount(s, steps, id))
  {
    if steps != [] {
      var init, step := steps[..|steps| - 1], steps[|steps| - 1];
      RejectsCounted(s, init, id);
      RunsAreSound(s, init);
      StepCounted(Exec(s, init), step, id, RejectCount(s, init, id));
    }
  }

  lemma CountBound(rows: Rows, id: string, n: nat)
    requires id in rows && Sound(rows[id]) && Counted(rows[id], n) && rows[id].maxRevisions < U32_MAX
    ensures n == rows[id].revision - 1 <= Cap(rows[id])
  {
  }

  /** So below the largest limit the revision never wraps and at most Cap rejects ever
      succeed, whatever submissions, reports and restarts come between. */
  lemma RejectsAreRevisions(s: State, steps: seq<Step>, id: string)
    requires Initial(s) && id in Exec(s, steps).rows && Exec(s, steps).rows[id].maxRevisions < U32_MAX
    ensures RejectCount(s, steps, id) == Exec(s, steps).rows[id].revision - 1 <= Cap(Exec(s, steps).rows[id])
  {
    RunsAreSound(s, steps);
    RejectsCounted(s, steps, id);
    CountBound(Exec(s, steps).rows, id, RejectCount(s, steps, id));
  }

  /** The revision number fails to grow exactly at the top of the 32-bit range, which
      an item within its limit reaches only under the largest limit there is; the
      reject then restarts the count instead of ending the item. */
  lemma RevisionWrapsIff(i: Item, lead: string, note: string)
    requires Rejectable(i.state) && i.revision <= i.maxRevisions
    ensures var j := RejectItem(i, lead, note);
            && (j.revision <= i.revision <==> i.revision == U32_MAX)
            && (i.revision == U32_MAX ==> i.maxRevisions == U32_MAX && j.state == NeedsRevision && j.revision == 0)
  {
  }

  // ---- Where Verified and Accepted come from -----------------------------

  /** A verify request on a submitted item that passes and is stored. */
  predicate PassingVerify(s: State, step: Step, id: string) {
    && step.VerifyWork? && step.id == id && step.writeOk
    && step.profile.Some? && Passes(step.profile.value, step.exits)
    && StateOf(s, id) == Some(Submitted)
  }

  /** An accepting review of a verified item that is stored. */
  predicate Accepting(s: State, step: Step, id: string) {
    && step.ReviewWork? && step.id == id && step.verdict == "accept" && step.writeOk
    && StateOf(s, id) == Some(Verified)
  }

  /** The failed report that moves the item, and is stored. */
  predicate FailingReport(s: State, step: Step, id: string) {
    && step.ReportTask? && step.id == id && step.status == Some(ReportFailed) && step.updateOk
    && id != "" && id in s.rows && s.rows[id].peerId != ""
    && (s.rows[id].state == Submitted || s.rows[id].state == NeedsRevision)
  }

  /** The states of one item as a machine of its own: what each step does to it. */
  function StateAfter(s: State, step: Step, id: string): Option<WorkState> {
    var before := StateOf(s, id);
    if step.SubmitWork? && step.id == id && step.writeOk && (before.None? || Submittable(before.value)) then Some(Submitted)
    else if PassingVerify(s, step, id) then Some(Verified)
    else if Accepting(s, step, id) then Some(Accepted)
    else if Rejecting(s, step) == Some(id) then Some(RejectItem(s.rows[id], "", "").state)
    else if StoredReport(s, step, id).Some? then
      Some(if before.value == InProgress && step.updateOk then Submitted else ReadState(before.value))
    else if FailingReport(s, step, id) then Some(FailureTarget(s.rows[id]))
    else if step.Restart? && id in Recovery.Moved(s.rows, DeadAgents(s.agents, step.procs), step.lostRows) then Some(FailureTarget(s.rows[id]))
    else before
  }

  lemma SubmitOnState(s: State, step: Step, id: string)
    requires step.SubmitWork?
    ensures StateOf(Next(s, step), id) == StateAfter(s, step, id)
  {
  }

  lemma ReviewOnState(s: State, step: Step, id: string)
    requires step.ReviewWork?
    ensures StateOf(Next(s, step), id) == StateAfter(s, step, id)
  {
  }

  lemma VerifyOnState(s: State, step: Step, id: string)
    requires step.VerifyWork?
    ensures StateOf(Next(s, step), id) == StateAfter(s, step, id)
  {
  }

  lemma CompletedOnState(s: State, step: Step, id: string)
    requires step.ReportTask? && step.status == Some(ReportCompleted)
    ensures StateOf(Next(s, step), id) == StateAfter(s, step, id)
  {
  }

  lemma OtherReportOnState(s: State, step: Step, id: string)
    requires step.ReportTask? && step.status != Some(ReportCompleted)
    ensures StateOf(Next(s, step), id) == StateAfter(s, step, id)
  {
  }

  /** The handlers and recovery do to the state of an item what the machine says. */
  lemma StepOnState(s: State, step: Step, id: string)
    ensures StateOf(Next(s, step), id) == StateAfter(s, step, id)
  {
    match step
    case SubmitWork(_, _, _) => SubmitOnState(s, step, id);
    case ReviewWork(_, _, _, _) => ReviewOnState(s, step, id);
    case VerifyWork(_, _, _, _) => VerifyOnState(s, step, id);
    case ReportTask(_, status, _, _, _, _) =>
      if status == Some(ReportCompleted) {
        CompletedOnState(s, step, id);
      } else {
        OtherReportOnState(s, step, id);
      }
    case Restart(_, _, _) =>
    case AgentsChange(_) =>
  }

  /** One step: a passing verify and nothing else enters Verified; an accepting or
      rejecting review and nothing else leaves it. */
  lemma StepIntoVerified(s: State, step: Step, id: string)
    ensures StateOf(Next(s, step), id) == Some(Verified) <==>
            PassingVerify(s, step, id) ||
            (StateOf(s, id) == Some(Verified) && !Accepting(s, step, id) && Rejecting(s, step) != Some(id))
  {
    StepOnState(s, step, id);
  }

  /** One step: an accepting review of a Verified item and nothing else enters
      Accepted; nothing leaves it. */
  lemma StepIntoAccepted(s: State, step: Step, id: string)
    ensures StateOf(Next(s, step), id) == Some(Accepted) <==>
            Accepting(s, step, id) || StateOf(s, id) == Some(Accepted)
  {
    StepOnState(s, step, id);
  }

  lemma AtVerified(s: State, steps: seq<Step>, id: string, k: nat)
    requires k < |steps|
    ensures var before, after := StateOf(At(s, steps, k), id), StateOf(At(s, steps, k + 1), id);
            after == Some(Verified) && !PassingVerify(At(s, steps, k), steps[k], id) ==> before == Some(Verified)
  {
    AtNext(s, steps, k);
    StepIntoVerified(At(s, steps, k), steps[k], id);
  }

  lemma AtAccepted(s: State, steps: seq<Step>, id: string, k: nat)
    requires k < |steps|
    ensures var before, after := StateOf(At(s, steps, k), id), StateOf(At(s, steps, k + 1), id);
            after == Some(Accepted) && !Accepting(At(s, steps, k), steps[k], id) ==> before == Some(Accepted)
  {
    AtNext(s, steps, k);
    StepIntoAccepted(At(s, steps, k), steps[k], id);
  }

  lemma {:induction false} VerifiedHistory(s: State, steps: seq<Step>, id: string, n: nat) returns (i: nat)
    requires Initial(s) && n <= |steps|
    requires StateOf(At(s, steps, n), id) == Some(Verified)
    ensures i < n && PassingVerify(At(s, steps, i), steps[i], id)
    ensures forall k :: i < k <= n ==> StateOf(At(s, steps, k), id) == Some(Verified)
  {
    assert At(s, steps, 0) == s;
    if n == 0 {
      assert false;
    } else {
      AtVerified(s, steps, id, n - 1);
      if PassingVerify(At(s, steps, n - 1), steps[n - 1], id) {
        i := n - 1;
      } else {
        i := VerifiedHistory(s, steps, id, n - 1);
      }
    }
  }

  lemma {:induction false} AcceptedHistory(s: State, steps: seq<Step>, id: string, n: nat) returns (j: nat)
    requires Initial(s) && n <= |steps|
    requires StateOf(At(s, steps, n), id) == Some(Accepted)
    ensures j < n && Accepting(At(s, steps, j), steps[j], id)
    ensures forall k :: j < k <= n ==> StateOf(At(s, steps, k), id) == Some(Accepted)
  {
    assert At(s, steps, 0) == s;
    if n == 0 {
      assert false;
    } else {
      AtAccepted(s, steps, id, n - 1);
      if Accepting(At(s, steps, n - 1), steps[n - 1], id) {
        j := n - 1;
      } else {
        j := AcceptedHistory(s, steps, id, n - 1);
      }
    }
  }

  /** An accepted item carries evidence; a passing verify took it from Submitted to
      Verified at some step i, an accepting review took it on at some later step
      j, and between them it was never anything but Verified. */
  lemma AcceptedWasVerified(s: State, steps: seq<Step>, id: string) returns (i: nat, j: nat)
    requires Initial(s)
    requires StateOf(Exec(s, steps), id) == Some(Accepted)
    ensures Exec(s, steps).rows[id].evidence.Some?
    ensures i < j < |steps|
    ensures PassingVerify(At(s, steps, i), steps[i], id) && Accepting(At(s, steps, j), steps[j], id)
    ensures forall k :: i < k <= j ==> StateOf(At(s, steps, k), id) == Some(Verified)
    ensures forall k :: j < k <= |steps| ==> StateOf(At(s, steps, k), id) == Some(Accepted)
  {
    assert steps[..|steps|] == steps;
    RunsAreSound(s, steps);
    j := AcceptedHistory(s, steps, id, |steps|);
    i := VerifiedHistory(s, steps, id, j);
  }

  /** From the passing verify on, no reject of the item is stored and every submission
      of it is refused. */
  lemma NothingReopened(s: State, steps: seq<Step>, id: string, i: nat, j: nat, k: nat)
    requires i < j < |steps| && i < k < |steps|
    requires forall m :: i < m <= j ==> StateOf(At(s, steps, m), id) == Some(Verified)
    requires forall m :: j < m <= |steps| ==> StateOf(At(s, steps, m), id) == Some(Accepted)
    ensures Rejecting(At(s, steps, k), steps[k]) != Some(id)
    ensures steps[k].SubmitWork? && steps[k].id == id ==> Answer(At(s, steps, k), steps[k]) == Error(TransitionError)
  {
    AtNext(s, steps, k);
    var before, after := StateOf(At(s, steps, k), id), StateOf(At(s, steps, k + 1), id);
    assert before == Some(Verified) || before == Some(Accepted);
    assert after == Some(Verified) || after == Some(Accepted);
    StepIntoVerified(At(s, steps, k), steps[k], id);
    StepIntoAccepted(At(s, steps, k), steps[k], id);
  }

  /** What a stored verify makes of a submitted item, in terms of how the commands of
      its profile exit. */
  lemma VerifiedIff(s: State, id: string, p: Profile, e: Exits)
    requires StateOf(s, id) == Some(Submitted)
    ensures StateOf(Next(s, VerifyWork(id, Some(p), e, true)), id) ==
            if match p
               case Full => e.fmt == e.clippy == e.test == e.build == Code(0)
               case Check => e.fmt == e.clippy == e.test == Code(0)
               case TestOnly => e.test == Code(0)
               case BuildOnly => e.build == Code(0)
               case Named(_) => true
            then Some(Verified) else Some(Submitted)
  {
    PassesIff(p, e);
    StepOnState(s, VerifyWork(id, Some(p), e, true), id);
  }

  /** A named profile names no command, so its check passes with nothing run. */
  lemma NamedProfilePasses(s: State, id: string, name: string, exits: Exits)
    requires StateOf(s, id) == Some(Submitted)
    ensures StateOf(Next(s, VerifyWork(id, Some(Named(name)), exits, true)), id) == Some(Verified)
  {
  }

  // ---- The other fields of a row -----------------------------------------

  /** A submission that is stored on an item already there. */
  predicate Resubmitting(s: State, step: Step, id: string) {
    && step.SubmitWork? && step.id == id && step.writeOk
    && (StateOf(s, id) == Some(InProgress) || StateOf(s, id) == Some(NeedsRevision))
  }

  /** Everything of a row but its state: the peer and the limit stay; a stored reject,
      and nothing else, bumps the revision and records lead and verdict; evidence is
      replaced by a stored submission or completed report only. */
  ghost predicate FieldsAfter(s: State, step: Step, id: string, before: Item, after: Item) {
    && after.peerId == before.peerId && after.maxRevisions == before.maxRevisions
    && (if Rejecting(s, step) == Some(id) then
          && after.leadId == "lead" && after.reviewVerdict == Some(step.note)
          && after.revision == if before.revision < U32_MAX then before.revision + 1 else 0
        else
          after.leadId == before.leadId && after.reviewVerdict == before.reviewVerdict && after.revision == before.revision)
    && (after.evidence ==
        if Resubmitting(s, step, id) then Some(step.evidence)
        else if StoredReport(s, step, id).Some? then StoredReport(s, step, id)
        else before.evidence)
  }

  lemma RequestOnFields(s: State, step: Step, id: string)
    requires id in s.rows && (step.SubmitWork? || step.VerifyWork?)
    ensures id in Next(s, step).rows && FieldsAfter(s, step, id, s.rows[id], Next(s, step).rows[id])
  {
  }

  lemma ReviewOnFields(s: State, step: Step, id: string)
    requires id in s.rows && step.ReviewWork?
    ensures id in Next(s, step).rows && FieldsAfter(s, step, id, s.rows[id], Next(s, step).rows[id])
  {
  }

  lemma ReportOnFields(s: State, step: Step, id: string)
    requires id in s.rows && step.ReportTask?
    ensures id in Next(s, step).rows && FieldsAfter(s, step, id, s.rows[id], Next(s, step).rows[id])
  {
  }

  lemma StepOnFields(s: State, step: Step, id: string)
    requires id in s.rows
    ensures id in Next(s, step).rows && FieldsAfter(s, step, id, s.rows[id], Next(s, step).rows[id])
  {
    match step
    case SubmitWork(_, _, _) => RequestOnFields(s, step, id);
    case ReviewWork(_, _, _, _) => ReviewOnFields(s, step, id);
    case VerifyWork(_, _, _, _) => RequestOnFields(s, step, id);
    case ReportTask(_, _, _, _, _, _) => ReportOnFields(s, step, id);
    case Restart(_, _, _) =>
    case AgentsChange(_) =>
  }

  /** A row appears by a stored submission of an unknown item only, as revision 1 of 3
      of the peer "cli". */
  lemma NewRow(s: State, step: Step, id: string)
    requires id !in s.rows && id in Next(s, step).rows
    ensures step.SubmitWork? && step.id == id && step.writeOk
    ensures Next(s, step).rows[id] == Item("cli", "", Submitted, 1, 3, Some(step.evidence), None)
  {
    StepOnState(s, step, id);
  }

  // ---- Which evidence an accepted item carries ---------------------------

  /** The evidence a completed report stores on the item, if it gets that far. */
  function StoredReport(s: State, step: Step, id: string): Option<Evidence> {
    if step.ReportTask? && step.id == id && step.status == Some(ReportCompleted) && id != "" && id in s.rows
       && s.rows[id].peerId != "" && step.commit.Some? && HasWorkspace(s.agents, s.rows[id].peerId)
       && step.check.Found? && step.insertOk
    then Some(step.check.evidence) else None
  }

  /** What each step of a run stores on the item by a completed report. */
  function Reports(s: State, steps: seq<Step>, id: string): seq<Option<Evidence>> {
    seq(|steps|, k requires 0 <= k < |steps| => StoredReport(At(s, steps, k), steps[k], id))
  }

  /** The last value present in xs[i..n]. */
  function Latest<T>(xs: seq<Option<T>>, i: nat, n: nat): Option<T>
    requires i <= n <= |xs|
    decreases n
  {
    if n == i then None
    else if xs[n - 1].Some? then xs[n - 1]
    else Latest(xs, i, n - 1)
  }

  /** A value overwritten by whatever is present is the last one present. */
  lemma {:induction false} LatestHolds<T>(xs: seq<Option<T>>, value: seq<Option<T>>, i: nat, n: nat)
    requires i <= n <= |xs| && |value| == |xs| + 1
    requires forall k :: i <= k < n ==> value[k + 1] == if xs[k].Some? then xs[k] else value[k]
    ensures value[n] == if Latest(xs, i, n).Some? then Latest(xs, i, n) else value[i]
    decreases n
  {
    if i < n {
      LatestHolds(xs, value, i, n - 1);
      assert value[n - 1 + 1] == if xs[n - 1].Some? then xs[n - 1] else value[n - 1];
    }
  }

  predicate PastVerifyNow(s: State, id: string) {
    StateOf(s, id) == Some(Verified) || StateOf(s, id) == Some(Accepted)
  }

  lemma RequestEvidence(s: State, step: Step, id: string)
    requires PastVerifyNow(s, id) && (step.SubmitWork? || step.ReviewWork? || step.VerifyWork?)
    ensures id in Next(s, step).rows && Next(s, step).rows[id].evidence == s.rows[id].evidence
  {
  }

  lemma ReportEvidence(s: State, step: Step, id: string)
    requires PastVerifyNow(s, id) && step.ReportTask?
    ensures id in Next(s, step).rows
    ensures var r := StoredReport(s, step, id);
            Next(s, step).rows[id].evidence == if r.Some? then r else s.rows[id].evidence
  {
  }

  lemma StepEvidence(s: State, step: Step, id: string)
    requires PastVerifyNow(s, id)
    ensures id in Next(s, step).rows
    ensures var r := StoredReport(s, step, id);
            Next(s, step).rows[id].evidence == if r.Some? then r else s.rows[id].evidence
  {
    if step.ReportTask? {
      ReportEvidence(s, step, id);
    } else if !step.Restart? && !step.AgentsChange? {
      RequestEvidence(s, step, id);
    }
  }

  ghost predicate PastVerify(s: State, steps: seq<Step>, id: string, k: nat)
    requires k <= |steps|
  {
    PastVerifyNow(At(s, steps, k), id)
  }

  function EvidenceAt(s: State, steps: seq<Step>, id: string, k: nat): Option<Evidence>
    requires k <= |steps|
  {
    if id in At(s, steps, k).rows then At(s, steps, k).rows[id].evidence else None
  }

  lemma AtEvidence(s: State, steps: seq<Step>, id: string, k: nat)
    requires k < |steps| && PastVerify(s, steps, id, k)
    ensures var r := StoredReport(At(s, steps, k), steps[k], id);
            EvidenceAt(s, steps, id, k + 1) == if r.Some? then r else EvidenceAt(s, steps, id, k)
  {
    AtNext(s, steps, k);
    StepEvidence(At(s, steps, k), steps[k], id);
  }

  /** While an item is Verified or Accepted its evidence is the evidence it had at
      the start, unless a completed report replaced it: then it is the last one. */
  lemma EvidenceSince(s: State, steps: seq<Step>, id: string, i: nat, n: nat)
    requires i <= n <= |steps|
    requires forall k :: i <= k <= n ==> PastVerify(s, steps, id, k)
    ensures var r := Latest(Reports(s, steps, id), i, n);
            EvidenceAt(s, steps, id, n) == if r.Some? then r else EvidenceAt(s, steps, id, i)
  {
    var reports := Reports(s, steps, id);
    var evidence := seq(|steps| + 1, k requires 0 <= k <= |steps| => EvidenceAt(s, steps, id, k));
    forall k | i <= k < n ensures evidence[k + 1] == if reports[k].Some? then reports[k] else evidence[k] {
      AtEvidence(s, steps, id, k);
    }
    LatestHolds(reports, evidence, i, n);
  }

  /** The evidence accepted is the evidence verified exactly when the last
      completed report after the passing verify, if any, brought the same. */
  lemma AcceptedEvidence(s: State, steps: seq<Step>, id: string) returns (i: nat)
    requires Initial(s)
    requires StateOf(Exec(s, steps), id) == Some(Accepted)
    ensures i < |steps| && PassingVerify(At(s, steps, i), steps[i], id)
    ensures var verified, accepted := EvidenceAt(s, steps, id, i), EvidenceAt(s, steps, id, |steps|);
            var r := Latest(Reports(s, steps, id), i + 1, |steps|);
            accepted == verified <==> r == None || r == verified
  {
    var j;
    i, j := AcceptedWasVerified(s, steps, id);
    forall k | i + 1 <= k <= |steps| ensures PastVerify(s, steps, id, k) {
      if k > j { assert StateOf(At(s, steps, k), id) == Some(Accepted); }
    }
    EvidenceSince(s, steps, id, i + 1, |steps|);
    VerifyKeepsEvidence(s, steps, id, i);
  }

  lemma VerifyKeepsEvidence(s: State, steps: seq<Step>, id: string, i: nat)
    requires i < |steps| && PassingVerify(At(s, steps, i), steps[i], id)
    ensures EvidenceAt(s, steps, id, i + 1) == EvidenceAt(s, steps, id, i)
  {
    AtNext(s, steps, i);
  }

  // ---- Absorbing states --------------------------------------------------

  /** States no step leaves: the two terminal ones that read back as themselves,
      and Pending, which no handler can move. */
  predicate Absorbing(w: WorkState) {
    w == Accepted || w == Rejected || w == Pending
  }

  lemma StepAbsorbs(s: State, step: Step, id: string)
    requires id in s.rows && Absorbing(s.rows[id].state)
    ensures StateOf(Next(s, step), id) == StateOf(s, id)
  {
    StepOnState(s, step, id);
  }

  /** A stored state that does not survive the read-back stays, until a completed
      report writes it back as Pending. */
  lemma StepUnreadable(s: State, step: Step, id: string)
    requires id in s.rows && ReadState(s.rows[id].state) != s.rows[id].state
    ensures StateOf(Next(s, step), id) == if StoredReport(s, step, id).Some? then Some(Pending) else StateOf(s, id)
  {
    StepOnState(s, step, id);
  }

  /** From any state whatsoever, and for any run: Accepted, Rejected and Pending
      rows keep their state; a Failed row stays Failed or becomes Pending. */
  lemma {:induction false} Absorption(s: State, steps: seq<Step>, id: string)
    requires id in s.rows
    ensures Absorbing(s.rows[id].state) ==> StateOf(Exec(s, steps), id) == StateOf(s, id)
    ensures s.rows[id].state == Failed ==>
            StateOf(Exec(s, steps), id) == Some(Failed) || StateOf(Exec(s, steps), id) == Some(Pending)
  {
    if steps != [] {
      var before := Exec(s, steps[..|steps| - 1]);
      Absorption(s, steps[..|steps| - 1], id);
      if id in before.rows {
        if Absorbing(before.rows[id].state) {
          StepAbsorbs(before, steps[|steps| - 1], id);
        } else if before.rows[id].state == Failed {
          StepUnreadable(before, steps[|steps| - 1], id);
        }
      }
    }
  }

  /** A stored terminal state changes in one way only: a completed report on an item
      whose terminal state does not survive the read-back writes it as Pending. */
  lemma TerminalChanges(s: State, step: Step, id: string)
    requires id in s.rows && IsTerminal(s.rows[id].state)
    ensures StateOf(Next(s, step), id) != StateOf(s, id) <==>
            s.rows[id].state != Accepted && s.rows[id].state != Rejected && StoredReport(s, step, id).Some?
  {
    if Absorbing(s.rows[id].state) {
      StepAbsorbs(s, step, id);
    } else {
      StepUnreadable(s, step, id);
    }
  }

  // ---- Dead ends ---------------------------------------------------------

  /** Rejected, Pending, and whatever does not survive the read-back. */
  predicate DeadEnd(w: WorkState) {
    w == Rejected || w == Pending || ReadState(w) != w
  }

  predicate AtDeadEnd(s: State, id: string) {
    id in s.rows && DeadEnd(s.rows[id].state)
  }

  lemma StepAtDeadEnd(s: State, step: Step, id: string)
    requires AtDeadEnd(s, id)
    ensures AtDeadEnd(Next(s, step), id)
  {
    if Absorbing(s.rows[id].state) {
      StepAbsorbs(s, step, id);
    } else {
      StepUnreadable(s, step, id);
    }
  }

  lemma {:induction false} DeadEndStays(s: State, steps: seq<Step>, id: string)
    requires AtDeadEnd(s, id)
    ensures AtDeadEnd(Exec(s, steps), id)
  {
    if steps != [] {
      DeadEndStays(s, steps[..|steps| - 1], id);
      StepAtDeadEnd(Exec(s, steps[..|steps| - 1]), steps[|steps| - 1], id);
    }
  }

  /** From a state that is no dead end a run to Accepted exists. */
  lemma RunToAccepted(s: State, id: string) returns (steps: seq<Step>)
    requires !AtDeadEnd(s, id)
    ensures StateOf(Exec(s, steps), id) == Some(Accepted)
  {
    var t := s;
    steps := [];
    if id !in s.rows || Submittable(s.rows[id].state) {
      steps, t := SubmitAndVerify(s, steps, t, id, Evidence("", "", ""));
    } else if s.rows[id].state == Submitted {
      steps, t := Then(s, steps, t, PassVerify(id));
    }
    if StateOf(t, id) == Some(Verified) {
      StepIntoAccepted(t, ReviewWork(id, "accept", "", true), id);
      steps, t := Then(s, steps, t, ReviewWork(id, "accept", "", true));
    }
  }

  /** From any state: some run ends with the item Accepted if and only if the item is
      unknown or in none of the dead-end states. */
  lemma AcceptableIff(s: State, id: string)
    ensures (exists steps :: StateOf(Exec(s, steps), id) == Some(Accepted)) <==>
            (id in s.rows ==> !DeadEnd(s.rows[id].state))
  {
    if AtDeadEnd(s, id) {
      forall steps ensures StateOf(Exec(s, steps), id) != Some(Accepted) {
        DeadEndStays(s, steps, id);
      }
    } else {
      var steps := RunToAccepted(s, id);
    }
  }

  // ---- Runs of a daemon that starts empty --------------------------------

  ghost predicate CliRow(i: Item) {
    i.peerId == "cli" && i.maxRevisions == 3 && i.state != InProgress && (ReadState(i.state) == i.state || i.state == Failed)
  }

  lemma ReportCli(s: State, step: Step, id: string)
    requires step.ReportTask? && (id in s.rows ==> CliRow(s.rows[id]))
    ensures id in NextRows(s, step) ==> CliRow(NextRows(s, step)[id])
  {
    if id in s.rows {
      StepOnState(s, step, id);
      ReportOnFields(s, step, id);
    }
  }

  lemma RequestCli(s: State, step: Step, id: string)
    requires step.SubmitWork? || step.ReviewWork? || step.VerifyWork?
    requires id in s.rows ==> CliRow(s.rows[id])
    ensures id in NextRows(s, step) ==> CliRow(NextRows(s, step)[id])
  {
  }

  lemma StepCli(s: State, step: Step, id: string)
    requires id in s.rows ==> CliRow(s.rows[id])
    ensures id in Next(s, step).rows ==> CliRow(Next(s, step).rows[id])
  {
    if step.ReportTask? {
      ReportCli(s, step, id);
    } else if !step.Restart? && !step.AgentsChange? {
      RequestCli(s, step, id);
    }
  }

  /** From an empty store no item is ever stored InProgress, and every item belongs
      to "cli" with three revisions: the daemon's own handlers create no other. */
  lemma {:induction false} EmptyStoreRuns(s: State, steps: seq<Step>, id: string)
    requires s.rows == map[]
    ensures id in Exec(s, steps).rows ==> CliRow(Exec(s, steps).rows[id])
  {
    if steps != [] {
      var init := steps[..|steps| - 1];
      EmptyStoreRuns(s, init, id);
      StepCli(Exec(s, init), steps[|steps| - 1], id);
    }
  }

  /** So which reports can be stored at all, starting empty: exactly those on an item
      while an agent registered under the id "cli" has a workspace. */
  lemma ReportableIff(s: State, steps: seq<Step>, id: string)
    requires s.rows == map[]
    ensures var t := Exec(s, steps);
            (exists step :: StoredReport(t, step, id).Some?) <==> id != "" && id in t.rows && HasWorkspace(t.agents, "cli")
  {
    EmptyStoreRuns(s, steps, id);
    var t := Exec(s, steps);
    if id != "" && id in t.rows && HasWorkspace(t.agents, "cli") {
      var e := Evidence("", "", "");
      assert StoredReport(t, ReportTask(id, Some(ReportCompleted), Some(""), Found(e), true, true), id).Some?;
    }
  }

  // ---- Answers and their effect ------------------------------------------

  /** A step on one item leaves every other row alone. */
  lemma OtherRowsUntouched(s: State, step: Step, id: string)
    requires !step.Restart? && !step.AgentsChange? && step.id != id
    ensures id in NextRows(s, step) <==> id in s.rows
    ensures id in s.rows ==> NextRows(s, step)[id] == s.rows[id]
  {
    match step
    case SubmitWork(_, _, _) =>
    case ReviewWork(_, _, _, _) =>
    case VerifyWork(_, _, _, _) =>
    case ReportTask(_, _, _, _, _, _) =>
  }

  /** What each answer to a submission, a review and a verify means. The conditions
      exclude each other, so they say exactly when each is given. */
  lemma RequestAnswers(s: State, step: Step)
    ensures step.SubmitWork? ==>
            var taken := step.id !in s.rows || s.rows[step.id].state == InProgress || s.rows[step.id].state == NeedsRevision;
            match Answer(s, step)
            case Ok => taken && step.writeOk
            case Error(StoreError) => taken && !step.writeOk
            case Error(TransitionError) => !taken
            case _ => false
    ensures step.ReviewWork? ==>
            var state := StateOf(s, step.id);
            match Answer(s, step)
            case Ok =>
              || (state == Some(Verified) && (step.verdict == "accept" || step.verdict == "reject"))
              || (state == Some(Submitted) && step.verdict == "reject")
            case Error(NotFound) => state == None
            case Error(Precondition) => state.Some? && state != Some(Verified) && step.verdict == "accept"
            case Error(TransitionError) => state.Some? && state != Some(Verified) && state != Some(Submitted) && step.verdict == "reject"
            case Error(InvalidRequest) => state.Some? && step.verdict != "accept" && step.verdict != "reject"
            case _ => false
    ensures step.VerifyWork? ==>
            var state := StateOf(s, step.id);
            match Answer(s, step)
            case Ok => state == Some(Submitted) && step.profile.Some?
            case Error(NotFound) => state == None
            case Error(Precondition) => state.Some? && state != Some(Submitted)
            case Error(InvalidRequest) => state == Some(Submitted) && step.profile.None?
            case _ => false
  {
  }

  /** The same for reports. */
  lemma ReportAnswers(s: State, step: Step)
    requires step.ReportTask?
    ensures var known := step.status.Some? && step.id != "" && step.id in s.rows && s.rows[step.id].peerId != "";
            var completed := known && step.status == Some(ReportCompleted) && step.commit.Some?;
            var failed := known && step.status == Some(ReportFailed);
            var workspace := known && s.rows[step.id].peerId in s.agents && s.agents[s.rows[step.id].peerId].workspace.Some?;
            var stored := completed && workspace && step.check.Found? && step.insertOk;
            match Answer(s, step)
            case Error(InvalidRequest) => step.status.None?
            case Error(InvalidTaskId) => step.status.Some? && step.id == ""
            case Error(NotFound) => step.status.Some? && step.id != "" && step.id !in s.rows
            case Error(NotAssigned) => step.status.Some? && step.id != "" && step.id in s.rows && s.rows[step.id].peerId == ""
            case Error(CommitRequired) => known && step.status == Some(ReportCompleted) && step.commit.None?
            case Error(StoreError) => completed && (!workspace || step.check.GitNotRun? || (step.check.Found? && !step.insertOk))
            case Error(CommitNotFound) => completed && workspace && step.check.NoSuchCommit?
            case Error(TransitionError) =>
              var state := s.rows[step.id].state;
              || (stored && (state == NeedsRevision || (state == InProgress && !step.updateOk)))
              || (failed && (state == InProgress || (!step.updateOk && (state == Submitted || state == NeedsRevision))))
            case Reported(w) =>
              known &&
              (match step.status.value
               case ReportCompleted => stored && w == Submitted
               case ReportFailed => w == if s.rows[step.id].revision >= s.rows[step.id].maxRevisions then Failed else NeedsRevision
               case _ => w == ReadState(s.rows[step.id].state))
            case _ => false
  {
  }

  /** An error appends no event and every other answer exactly one, about the item or,
      for reports, about its peer; its kind follows the request and not the write. */
  lemma EventsFollowAnswers(s: State, step: Step)
    ensures Appended(s, step) ==
            if step.Restart? || step.AgentsChange? || Answer(s, step).Error? then []
            else
              match step
              case SubmitWork(id, _, _) => [Event(id, WorkSubmitted)]
              case ReviewWork(id, verdict, _, _) => [Event(id, if verdict == "accept" then WorkAccepted else WorkRejected)]
              case VerifyWork(id, _, _, _) => [Event(id, WorkVerified)]
              case ReportTask(id, status, _, _, _, _) =>
                [Event(s.rows[id].peerId,
                       if status == Some(ReportCompleted) then WorkSubmitted
                       else if status == Some(ReportFailed) && Answer(s, step) == Reported(Failed) then TaskFailed
                       else AgentProgress)]
              case _ => []
  {
  }

  /** A submission is taken exactly for an unknown item or one in progress or sent
      back, and then that very evidence is what waits for review. */
  lemma SubmissionTaken(s: State, id: string, e: Evidence, writeOk: bool)
    ensures var step := SubmitWork(id, e, writeOk);
            (Answer(s, step) == Ok <==>
             writeOk && (id !in s.rows || s.rows[id].state == InProgress || s.rows[id].state == NeedsRevision)) &&
            (Answer(s, step) == Ok ==>
             id in NextRows(s, step) && NextRows(s, step)[id].state == Submitted && NextRows(s, step)[id].evidence == Some(e))
  {
  }

  /** A review is answered Ok whether or not it was stored: an acknowledged verdict
      has its effect exactly when the write went through. */
  lemma AcknowledgedReview(s: State, step: Step)
    requires step.ReviewWork? && Answer(s, step) == Ok
    ensures NextRows(s, step) != s.rows <==> step.writeOk
    ensures step.writeOk ==>
      StateOf(Next(s, step), step.id) ==
      if step.verdict == "accept" then Some(Accepted)
      else if s.rows[step.id].revision >= s.rows[step.id].maxRevisions && s.rows[step.id].revision < U32_MAX then Some(Rejected)
      else Some(NeedsRevision)
  {
    var before, after := s.rows, NextRows(s, step);
    if step.writeOk {
      assert after[step.id].state != before[step.id].state;
    }
  }

  /** A failed report moves an item exactly when its transition is in the table and
      the write goes through: from Submitted, to NeedsRevision or, with the revisions
      used up, to Failed; and from NeedsRevision to Failed. In progress it answers an
      error, write or no write. */
  lemma FailedReport(s: State, id: string, check: CommitCheck, updateOk: bool)
    requires id in s.rows && id != "" && s.rows[id].peerId != ""
    ensures var step := ReportTask(id, Some(ReportFailed), None, check, true, updateOk);
            var before, done := s.rows[id].state, s.rows[id].revision >= s.rows[id].maxRevisions;
            && (Answer(s, step).Error? <==> before == InProgress || (!updateOk && (before == Submitted || before == NeedsRevision)))
            && StateOf(Next(s, step), id) ==
               if updateOk && (before == Submitted || (before == NeedsRevision && done)) then Some(if done then Failed else NeedsRevision)
               else Some(before)
  {
  }

  /** The state an accepted report answers is the state stored, except exactly: a
      completed report claims Submitted of anything but a submitted or newly submitted
      item, a failed one claims its target of an item it could not move, and a progress
      report repeats the read-back of a state that does not survive one. */
  lemma ReportedStateIff(s: State, step: Step)
    requires step.ReportTask? && Answer(s, step).Reported?
    ensures step.id in s.rows && step.status.Some?
    ensures var row := s.rows[step.id];
            StateOf(Next(s, step), step.id) == Some(Answer(s, step).newState) <==>
            match step.status.value
            case ReportCompleted => row.state == Submitted || row.state == InProgress
            case ReportFailed => CanFail(ReadState(row.state)) || row.state == FailureTarget(row)
            case _ => ReadState(row.state) == row.state
  {
  }

  // ---- Errors that leave something behind --------------------------------

  /** A handler that answers with an error has left the rows alone, except for a
      completed report whose evidence was stored before its transition failed:
      always on NeedsRevision, on InProgress when the second write fails. */
  lemma ErrorsAreAtomicExcept(s: State, step: Step)
    requires Answer(s, step).Error?
    ensures NextRows(s, step) != s.rows <==>
            && step.ReportTask?
            && StoredReport(s, step, step.id).Some?
            && (s.rows[step.id].state == NeedsRevision || (s.rows[step.id].state == InProgress && !step.updateOk))
            && s.rows[step.id].evidence != StoredReport(s, step, step.id)
  {
    match step
    case SubmitWork(_, _, _) =>
    case ReviewWork(_, _, _, _) =>
    case VerifyWork(_, _, _, _) =>
    case ReportTask(id, _, _, check, _, _) =>
      if StoredReport(s, step, id).Some? {
        var i := ReadItem(s.rows[id]);
        if Submittable(i.state) {
          assert NextRows(s, step) == s.rows[id := s.rows[id].(evidence := Some(check.evidence))];
          assert NextRows(s, step)[id].evidence == Some(check.evidence);
        }
      }
  }

  /** A completed report never resubmits an item sent back for revision; only
      SubmitWork does. */
  lemma ReworkNeedsSubmitWork(s: State, step: Step, id: string)
    requires StateOf(s, id) == Some(NeedsRevision)
    ensures StateOf(Next(s, step), id) == Some(Submitted) <==> step.SubmitWork? && step.id == id && step.writeOk
  {
    StepOnState(s, step, id);
  }

  // ---- Runs on which the exceptions happen -------------------------------

  /** A run grown by one step. */
  lemma Then(start: State, steps: seq<Step>, s: State, step: Step) returns (steps': seq<Step>, s': State)
    requires s == Exec(start, steps)
    ensures steps' == steps + [step] && s' == Next(s, step) == Exec(start, steps')
  {
    steps', s' := steps + [step], Next(s, step);
    assert steps'[..|steps|] == steps;
  }

  function CompletedWith(id: string, e: Evidence): Step {
    ReportTask(id, Some(ReportCompleted), Some(""), Found(e), true, true)
  }

  /** An empty store and an agent "cli" with a workspace. */
  ghost predicate Startable(start: State, id: string) {
    start.rows == map[] && HasWorkspace(start.agents, "cli") && id != ""
  }

  function PassVerify(id: string): Step {
    VerifyWork(id, Some(Full), Exits(Code(0), Code(0), Code(0), Code(0)), true)
  }

  /** Submitted, and passed by a verify that ran every command. */
  lemma SubmitAndVerify(start: State, steps: seq<Step>, s: State, id: string, e: Evidence)
    returns (steps': seq<Step>, s': State)
    requires s == Exec(start, steps) && (id in s.rows ==> Submittable(s.rows[id].state))
    ensures steps' == steps + [SubmitWork(id, e, true), PassVerify(id)]
    ensures s' == Exec(start, steps') && s'.agents == s.agents && StateOf(s', id) == Some(Verified)
    ensures s'.rows[id].evidence == Some(e) && s'.rows[id].peerId == if id in s.rows then s.rows[id].peerId else "cli"
  {
    steps', s' := Then(start, steps, s, SubmitWork(id, e, true));
    steps', s' := Then(start, steps', s', PassVerify(id));
  }

  /** A report on a verified item replaces its evidence, and claims Submitted of it. */
  lemma ReportOnVerified(s: State, id: string, e: Evidence)
    requires StateOf(s, id) == Some(Verified) && id != "" && s.rows[id].peerId != "" && HasWorkspace(s.agents, s.rows[id].peerId)
    ensures Answer(s, CompletedWith(id, e)) == Reported(Submitted)
    ensures var t := Next(s, CompletedWith(id, e)); StateOf(t, id) == Some(Verified) && t.rows[id].evidence == Some(e)
  {
    StepIntoVerified(s, CompletedWith(id, e), id);
    StepEvidence(s, CompletedWith(id, e), id);
  }

  lemma AcceptVerified(s: State, id: string)
    requires StateOf(s, id) == Some(Verified)
    ensures var t := Next(s, ReviewWork(id, "accept", "", true)); StateOf(t, id) == Some(Accepted) && t.rows[id].evidence == s.rows[id].evidence
  {
  }

  /** Submitted and verified with one evidence, accepted with another; the report in
      between claims Submitted of the verified item. */
  lemma EvidenceReplaced(start: State, id: string, e1: Evidence, e2: Evidence)
    returns (first: seq<Step>, verified: State, steps: seq<Step>, s: State)
    requires Startable(start, id)
    ensures first == [SubmitWork(id, e1, true), PassVerify(id)] && verified == Exec(start, first)
    ensures StateOf(verified, id) == StateOf(Next(verified, CompletedWith(id, e2)), id) == Some(Verified)
    ensures verified.rows[id].evidence == Some(e1) && Answer(verified, CompletedWith(id, e2)) == Reported(Submitted)
    ensures steps == first + [CompletedWith(id, e2)] + [ReviewWork(id, "accept", "", true)] && s == Exec(start, steps)
    ensures StateOf(s, id) == Some(Accepted) && s.rows[id].evidence == Some(e2)
  {
    first, verified := SubmitAndVerify(start, [], start, id, e1);
    steps, s := ReplaceAndAccept(start, first, verified, id, e2);
  }

  lemma ReplaceAndAccept(start: State, steps: seq<Step>, s: State, id: string, e: Evidence) returns (steps': seq<Step>, s': State)
    requires s == Exec(start, steps)
    requires StateOf(s, id) == Some(Verified) && id != "" && s.rows[id].peerId != "" && HasWorkspace(s.agents, s.rows[id].peerId)
    ensures Answer(s, CompletedWith(id, e)) == Reported(Submitted) && StateOf(Next(s, CompletedWith(id, e)), id) == Some(Verified)
    ensures steps' == steps + [CompletedWith(id, e)] + [ReviewWork(id, "accept", "", true)] && s' == Exec(start, steps')
    ensures StateOf(s', id) == Some(Accepted) && s'.rows[id].evidence == Some(e)
  {
    ReportOnVerified(s, id, e);
    steps', s' := Then(start, steps, s, CompletedWith(id, e));
    AcceptVerified(s', id);
    steps', s' := Then(start, steps', s', ReviewWork(id, "accept", "", true));
  }

  /** An accept that is not stored is answered Ok and leaves the item Verified. */
  lemma LostAccept(start: State, id: string, e: Evidence) returns (steps: seq<Step>, s: State)
    requires start.rows == map[]
    ensures s == Exec(start, steps) && steps == [SubmitWork(id, e, true), PassVerify(id)]
    ensures Answer(s, ReviewWork(id, "accept", "", false)) == Ok
    ensures StateOf(Next(s, ReviewWork(id, "accept", "", false)), id) == Some(Verified)
  {
    steps, s := SubmitAndVerify(start, [], start, id, e);
  }

  /** Submitted and rejected once more. */
  lemma Rework(start: State, steps: seq<Step>, s: State, id: string, e: Evidence, before: Item)
    returns (steps': seq<Step>, s': State)
    requires s == Exec(start, steps)
    requires if id in s.rows then before == s.rows[id] && before.state == NeedsRevision else before == NewItem("cli")
    requires before.revision < before.maxRevisions
    ensures steps' == steps + [SubmitWork(id, e, true), ReviewWork(id, "reject", "", true)]
    ensures s' == Exec(start, steps') && s'.agents == s.agents && StateOf(s', id) == Some(NeedsRevision)
    ensures var after := s'.rows[id];
            && after.evidence == Some(e) && after.peerId == before.peerId
            && after.revision == before.revision + 1 && after.maxRevisions == before.maxRevisions
  {
    steps', s' := Then(start, steps, s, SubmitWork(id, e, true));
    steps', s' := Then(start, steps', s', ReviewWork(id, "reject", "", true));
  }

  lemma ReportOnRework(s: State, id: string, e: Evidence)
    requires StateOf(s, id) == Some(NeedsRevision) && id != ""
    requires s.rows[id].peerId != "" && HasWorkspace(s.agents, s.rows[id].peerId)
    ensures Answer(s, CompletedWith(id, e)) == Error(TransitionError)
    ensures id in NextRows(s, CompletedWith(id, e)) && NextRows(s, CompletedWith(id, e))[id].evidence == Some(e)
  {
  }

  /** Sent back once: the completed report answers an error and its evidence is stored. */
  lemma ErrorStoresEvidence(start: State, id: string, e1: Evidence, e2: Evidence) returns (steps: seq<Step>, s: State)
    requires Startable(start, id)
    ensures s == Exec(start, steps) && steps == [SubmitWork(id, e1, true), ReviewWork(id, "reject", "", true)]
    ensures id in s.rows && s.rows[id].evidence == Some(e1)
    ensures Answer(s, CompletedWith(id, e2)) == Error(TransitionError)
    ensures id in NextRows(s, CompletedWith(id, e2)) && NextRows(s, CompletedWith(id, e2))[id].evidence == Some(e2)
  {
    steps, s := [], start;
    steps, s := Rework(start, steps, s, id, e1, NewItem("cli"));
    ReportOnRework(s, id, e2);
  }

  /** Submitted in the last revision, and reported as failed. */
  lemma FailInLastRevision(start: State, steps: seq<Step>, s: State, id: string, e: Evidence)
    returns (steps': seq<Step>, s': State)
    requires s == Exec(start, steps) && id != ""
    requires StateOf(s, id) == Some(NeedsRevision) && s.rows[id].revision >= s.rows[id].maxRevisions && s.rows[id].peerId != ""
    ensures s' == Exec(start, steps') && s'.agents == s.agents
    ensures StateOf(s', id) == Some(Failed) && s'.rows[id].peerId == s.rows[id].peerId
  {
    steps', s' := Then(start, steps, s, SubmitWork(id, e, true));
    steps', s' := Then(start, steps', s', ReportTask(id, Some(ReportFailed), None, GitNotRun, true, true));
  }

  /** Out of revisions, failed, and written back as Pending by a completed report. */
  lemma FailedBecomesPending(start: State, id: string, e: Evidence) returns (steps: seq<Step>, s: State, t: State)
    requires Startable(start, id)
    ensures s == Exec(start, steps) && StateOf(s, id) == Some(Failed)
    ensures t == Exec(start, steps + [CompletedWith(id, e)]) && StateOf(t, id) == Some(Pending)
  {
    steps, s := [], start;
    steps, s := Rework(start, steps, s, id, e, NewItem("cli"));
    steps, s := Rework(start, steps, s, id, e, s.rows[id]);
    steps, s := FailInLastRevision(start, steps, s, id, e);
    var _, after := Then(start, steps, s, CompletedWith(id, e));
    t := after;
    StepUnreadable(s, CompletedWith(id, e), id);
  }
}
