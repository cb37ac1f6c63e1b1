/** Work items (work.rs): states, the transition table and the item object. */
module Work {
  import opened Options

  const U32_MAX: int := 0xFFFF_FFFF
  type u32 = n: nat | n <= U32_MAX

  datatype WorkState =
    | Pending | InProgress | Submitted | Verified | Accepted | NeedsRevision | Rejected
    | Received | Explored | Planned | Executing | Executed | Verifying
    | Failed | Fixing | Exhausted | Cancelled

  predicate IsTerminal(s: WorkState) {
    s == Accepted || s == Rejected || s == Failed || s == Exhausted || s == Cancelled
  }

  predicate CanTransition(from: WorkState, to: WorkState) {
    from == to ||
    match from
    case Pending => to == InProgress || to == Cancelled
    case InProgress => to == Submitted || to == Rejected || to == Cancelled
    case Submitted => to == Verified || to == NeedsRevision || to == Failed || to == Cancelled
    case Verified => to == Accepted || to == NeedsRevision || to == Cancelled
    case NeedsRevision => to == InProgress || to == Rejected || to == Failed
    case Received => to == Explored || to == Cancelled
    case Explored => to == Planned || to == Cancelled
    case Planned => to == Executing || to == Cancelled
    case Executing => to == Executed || to == Failed || to == Cancelled
    case Executed => to == Verifying || to == Cancelled
    case Verifying => to == Verified || to == Rejected || to == Fixing || to == Cancelled
    case Fixing => to == Executing || to == Exhausted || to == Cancelled
    case Rejected => to == Exhausted
    case _ => false
  }

  /** The table read by target: from where each state can be entered. */
  lemma EnteredFrom(from: WorkState, to: WorkState)
    ensures CanTransition(from, to) <==>
            from == to ||
            match to
            case InProgress => from == Pending || from == NeedsRevision
            case Submitted => from == InProgress
            case Verified => from == Submitted || from == Verifying
            case Accepted => from == Verified
            case NeedsRevision => from == Submitted || from == Verified
            case Rejected => from == InProgress || from == NeedsRevision || from == Verifying
            case Explored => from == Received
            case Planned => from == Explored
            case Executing => from == Planned || from == Fixing
            case Executed => from == Executing
            case Verifying => from == Executed
            case Failed => from == Submitted || from == NeedsRevision || from == Executing
            case Fixing => from == Verifying
            case Exhausted => from == Rejected || from == Fixing
            case Cancelled => !IsTerminal(from) && from != NeedsRevision
            case _ => false
  {
  }

  /** A state is terminal exactly when it leads nowhere but to itself, or to Exhausted. */
  lemma TerminalIff(s: WorkState)
    ensures IsTerminal(s) <==> forall t :: CanTransition(s, t) ==> t == s || t == Exhausted
  {
    if s == Pending || s == NeedsRevision {
      assert CanTransition(s, InProgress);
    } else if !IsTerminal(s) {
      assert CanTransition(s, Cancelled);
    }
  }

  datatype Evidence = Evidence(sha256: string, artifactPath: string, producedAt: string)

  /** The value of a work item, and the shape of its stored row. */
  datatype Item = Item(
    peerId: string,
    leadId: string,
    state: WorkState,
    revision: u32,
    maxRevisions: u32,
    evidence: Option<Evidence>,
    reviewVerdict: Option<string>)

  function NewItem(peerId: string): Item {
    Item(peerId, "", Pending, 1, 3, None, None)
  }

  predicate Submittable(s: WorkState) {
    s == InProgress || s == NeedsRevision
  }

  predicate Rejectable(s: WorkState) {
    s == Submitted || s == Verified
  }

  /** revision += 1 on a 32-bit counter, as an optimised build computes it. */
  function Bump(r: u32): u32 {
    if r == U32_MAX then 0 else r + 1
  }

  function SubmitItem(i: Item, evidence: Evidence): Item {
    i.(state := Submitted, evidence := Some(evidence))
  }

  function RejectItem(i: Item, lead: string, verdict: string): Item {
    i.(state := if Bump(i.revision) > i.maxRevisions then Rejected else NeedsRevision,
       revision := Bump(i.revision),
       leadId := lead,
       reviewVerdict := Some(verdict))
  }

  datatype TransitionResult = Moved | Invalid(from: WorkState, to: WorkState)

  class WorkItem {
    var peerId: string
    var leadId: string
    var state: WorkState
    var revision: u32
    var maxRevisions: u32
    var evidence: Option<Evidence>
    var reviewVerdict: Option<string>

    function Value(): Item
      reads this
    {
      Item(peerId, leadId, state, revision, maxRevisions, evidence, reviewVerdict)
    }

    constructor (peerId: string)
      ensures Value() == NewItem(peerId)
      ensures this.peerId == peerId && leadId == "" && state == Pending && revision == 1 && maxRevisions == 3
      ensures evidence == None && reviewVerdict == None
    {
      this.peerId, leadId, state := peerId, "", Pending;
      revision, maxRevisions := 1, 3;
      evidence, reviewVerdict := None, None;
    }

    /** An item as read from the store. */
    constructor Load(i: Item)
      ensures Value() == i
    {
      peerId, leadId, state := i.peerId, i.leadId, i.state;
      revision, maxRevisions := i.revision, i.maxRevisions;
      evidence, reviewVerdict := i.evidence, i.reviewVerdict;
    }

    method Transition(to: WorkState) returns (r: TransitionResult)
      modifies this
      ensures r == if CanTransition(old(state), to) then Moved else Invalid(old(state), to)
      ensures Value() == if r.Moved? then old(Value()).(state := to) else old(Value())
      ensures r.Moved? ==> state == to
    {
      if CanTransition(state, to) {
        state := to;
        return Moved;
      }
      return Invalid(state, to);
    }

    method Reject(lead: string, verdict: string) returns (r: TransitionResult)
      modifies this
      ensures r == if Rejectable(old(state)) then Moved else Invalid(old(state), NeedsRevision)
      ensures Value() == if r.Moved? then RejectItem(old(Value()), lead, verdict) else old(Value())
      ensures r.Moved? <==> old(state) == Submitted || old(state) == Verified
      ensures r.Moved? ==> leadId == lead && reviewVerdict == Some(verdict)
      ensures r.Moved? && old(revision) < U32_MAX ==>
                revision == old(revision) + 1 && state == if old(revision) < maxRevisions then NeedsRevision else WorkState.Rejected
      ensures peerId == old(peerId) && maxRevisions == old(maxRevisions) && evidence == old(evidence)
    {
      if !(state == Submitted || state == Verified) {
        return Invalid(state, NeedsRevision);
      }
      reviewVerdict := Some(verdict);
      leadId := lead;
      revision := Bump(revision);
      if revision > maxRevisions {
        state := Rejected;
      } else {
        state := NeedsRevision;
      }
      return Moved;
    }

    method Submit(e: Evidence) returns (r: TransitionResult)
      modifies this
      ensures r == if Submittable(old(state)) then Moved else Invalid(old(state), Submitted)
      ensures Value() == if r.Moved? then SubmitItem(old(Value()), e) else old(Value())
      ensures r.Moved? <==> old(state) == InProgress || old(state) == NeedsRevision
      ensures r.Moved? ==> state == Submitted && evidence == Some(e)
      ensures peerId == old(peerId) && leadId == old(leadId) && reviewVerdict == old(reviewVerdict)
      ensures revision == old(revision) && maxRevisions == old(maxRevisions)
    {
      if !(state == InProgress || state == NeedsRevision) {
        return Invalid(state, Submitted);
      }
      evidence := Some(e);
      state := Submitted;
      return Moved;
    }
  }
}
