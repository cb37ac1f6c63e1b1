/** The authority lease (authority.rs) and the protocol of clients that use it
    against a shared clock. Timestamps are points on one time line. */
module Lease {
  import opened Options

  datatype LeaseValue = LeaseValue(
    owner: Option<string>,
    leaseId: Option<string>,
    leasedUntil: Option<int>,
    stale: bool,
    staleReason: Option<(int, int)>)

  const UNHELD := LeaseValue(None, None, None, false, None)

  datatype Outcome = Granted | AlreadyHeld(holder: string) | NotHeld | Expired | OwnerMismatch(expected: string, actual: string)

  function Held(owner: string, leaseId: string, until: int): LeaseValue {
    LeaseValue(Some(owner), Some(leaseId), Some(until), false, None)
  }

  // ---- The four operations, as outcome and new value ---------------------

  function AcquireOutcome(l: LeaseValue, owner: string): Outcome {
    if l.owner == None || l.owner == Some(owner) || l.stale then Granted else AlreadyHeld(l.owner.value)
  }

  function RenewOutcome(l: LeaseValue, owner: string): Outcome {
    if l.owner == None then NotHeld
    else if l.owner != Some(owner) then OwnerMismatch(l.owner.value, owner)
    else if l.stale then Expired
    else Granted
  }

  function ReleaseOutcome(l: LeaseValue, owner: string): Outcome {
    if l.owner == None then NotHeld
    else if l.owner != Some(owner) then OwnerMismatch(l.owner.value, owner)
    else Granted
  }

  predicate PassedBy(l: LeaseValue, now: int) {
    l.leasedUntil.Some? && l.leasedUntil.value < now
  }

  function Checked(l: LeaseValue, now: int): LeaseValue {
    if PassedBy(l, now) then l.(stale := true, staleReason := Some((l.leasedUntil.value, now))) else l
  }

  class AuthorityLease {
    var owner: Option<string>
    var leaseId: Option<string>
    var leasedUntil: Option<int>
    var stale: bool
    var staleReason: Option<(int, int)>

    function Value(): LeaseValue
      reads this
    {
      LeaseValue(owner, leaseId, leasedUntil, stale, staleReason)
    }

    constructor ()
      ensures Value() == UNHELD
    {
      owner, leaseId, leasedUntil, stale, staleReason := None, None, None, false, None;
    }

    method Acquire(who: string, id: string, until: int) returns (r: Outcome)
      modifies this
      ensures r == AcquireOutcome(old(Value()), who)
      ensures Value() == if r.Granted? then Held(who, id, until) else old(Value())
      ensures r.Granted? <==> old(owner) == None || old(owner) == Some(who) || old(stale)
      ensures !r.Granted? ==> old(owner) == Some(r.holder)
      ensures r.Granted? ==> owner == Some(who) && leaseId == Some(id) && leasedUntil == Some(until) && !stale && staleReason == None
    {
      match owner {
        case Some(current) =>
          if current == who {
            leaseId, leasedUntil := Some(id), Some(until);
            stale, staleReason := false, None;
            return Granted;
          } else if stale {
            owner, leaseId, leasedUntil := Some(who), Some(id), Some(until);
            stale, staleReason := false, None;
            return Granted;
          } else {
            return AlreadyHeld(current);
          }
        case None =>
          owner, leaseId, leasedUntil := Some(who), Some(id), Some(until);
          stale, staleReason := false, None;
          return Granted;
      }
    }

    method Renew(who: string, id: string, until: int) returns (r: Outcome)
      modifies this
      ensures r == RenewOutcome(old(Value()), who)
      ensures Value() == if r.Granted? then old(Value()).(leaseId := Some(id), leasedUntil := Some(until)) else old(Value())
      ensures r.Granted? <==> old(owner) == Some(who) && !old(stale)
      ensures r == Expired <==> old(owner) == Some(who) && old(stale)
      ensures r == NotHeld <==> old(owner) == None
      ensures r.OwnerMismatch? <==> old(owner).Some? && old(owner) != Some(who)
      ensures r.OwnerMismatch? ==> old(owner) == Some(r.expected) && r.actual == who
    {
      match owner {
        case Some(current) =>
          if current == who {
            if stale {
              return Expired;
            }
            leaseId, leasedUntil := Some(id), Some(until);
            return Granted;
          } else {
            return OwnerMismatch(current, who);
          }
        case None => return NotHeld;
      }
    }

    method Release(who: string) returns (r: Outcome)
      modifies this
      ensures r == ReleaseOutcome(old(Value()), who)
      ensures r.Granted? <==> old(owner) == Some(who)
      ensures r == NotHeld <==> old(owner) == None
      ensures r.OwnerMismatch? <==> old(owner).Some? && old(owner) != Some(who)
      ensures r.OwnerMismatch? ==> old(owner) == Some(r.expected) && r.actual == who
      ensures r.Granted? ==> owner == None && leaseId == None && leasedUntil == None && !stale && staleReason == None
      ensures Value() == if r.Granted? then UNHELD else old(Value())
    {
      match owner {
        case Some(current) =>
          if current == who {
            owner, leaseId, leasedUntil, stale, staleReason := None, None, None, false, None;
            return Granted;
          } else {
            return OwnerMismatch(current, who);
          }
        case None => return NotHeld;
      }
    }

    /** Marks the lease stale once its time has passed; never clears the mark. */
    method CheckStaleness(now: int) returns (r: bool)
      modifies this
      ensures r == PassedBy(old(Value()), now)
      ensures Value() == Checked(old(Value()), now)
      ensures r <==> old(leasedUntil).Some? && old(leasedUntil).value < now
      ensures r ==> stale && staleReason == Some((old(leasedUntil).value, now))
      ensures !r ==> stale == old(stale) && staleReason == old(staleReason)
      ensures owner == old(owner) && leaseId == old(leaseId) && leasedUntil == old(leasedUntil)
    {
      if leasedUntil.Some? && leasedUntil.value < now {
        stale := true;
        staleReason := Some((leasedUntil.value, now));
        return true;
      }
      return false;
    }

    method IsAvailable() returns (r: bool)
      ensures r <==> owner == None || stale
      ensures r <==> forall who :: AcquireOutcome(Value(), who).Granted?
    {
      r := owner == None || stale;
      if !r {
        assert !AcquireOutcome(Value(), owner.value + "'").Granted?;
      }
    }
  }

  // ---- The protocol ------------------------------------------------------

  /** grants: for each client its latest unreleased grant, as it believes. */
  datatype State = State(lease: LeaseValue, now: int, grants: map<string, int>)

  datatype Step =
    | Acquire(who: string, id: string, until: int)
    | Renew(who: string, id: string, until: int)
    | Release(who: string)
    | Check(at: int)
    | Tick(to: int)

  const START := State(UNHELD, 0, map[])

  function Next(s: State, step: Step): State {
    match step
    case Acquire(who, id, until) =>
      if AcquireOutcome(s.lease, who).Granted?
      then s.(lease := Held(who, id, until), grants := s.grants[who := until]) else s
    case Renew(who, id, until) =>
      if RenewOutcome(s.lease, who).Granted?
      then s.(lease := s.lease.(leaseId := Some(id), leasedUntil := Some(until)), grants := s.grants[who := until]) else s
    case Release(who) =>
      if ReleaseOutcome(s.lease, who).Granted?
      then s.(lease := UNHELD, grants := s.grants - {who}) else s
    case Check(at) => s.(lease := Checked(s.lease, at))
    case Tick(to) => s.(now := to)
  }

  /** The clock does not go back, and nobody checks with a time still to come. */
  predicate Timely(s: State, step: Step) {
    (step.Tick? ==> s.now <= step.to) && (step.Check? ==> step.at <= s.now)
  }

  function Exec(s: State, steps: seq<Step>): State {
    if steps == [] then s else Next(Exec(s, steps[..|steps| - 1]), steps[|steps| - 1])
  }

  predicate AllTimely(s: State, steps: seq<Step>) {
    steps == [] ||
    (AllTimely(s, steps[..|steps| - 1]) && Timely(Exec(s, steps[..|steps| - 1]), steps[|steps| - 1]))
  }

  /** The client holds an unreleased grant whose time has not passed. */
  predicate Live(s: State, c: string) {
    c in s.grants && s.now <= s.grants[c]
  }

  ghost predicate TwoLive(s: State) {
    exists a, b :: a != b && Live(s, a) && Live(s, b)
  }

  // ---- The invariant -----------------------------------------------------

  /** The lease records its owner's latest grant. No step of any kind breaks this. */
  ghost predicate Ledger(s: State) {
    && (s.lease.owner.Some? <==> s.lease.leasedUntil.Some?)
    && (s.lease.stale ==> s.lease.owner.Some?)
    && (s.lease.owner.Some? ==>
          s.lease.owner.value in s.grants && s.lease.leasedUntil == Some(s.grants[s.lease.owner.value]))
  }

  /** Whoever holds a live grant is the owner of a lease that is not stale. */
  ghost predicate Guarded(s: State) {
    forall c :: Live(s, c) ==> s.lease.owner == Some(c) && !s.lease.stale
  }

  lemma {:induction false} LedgerRuns(steps: seq<Step>)
    ensures Ledger(Exec(START, steps))
  {
    if steps != [] {
      LedgerRuns(steps[..|steps| - 1]);
    }
  }

  /** The only steps that leave a live grant unguarded: a check made with a time that
      has passed the lease while the clock has not, and a clock set back to where a
      grant already displaced, or found stale, is live again. */
  lemma StepBreaksIff(s: State, step: Step)
    requires Ledger(s) && Guarded(s)
    ensures !Guarded(Next(s, step)) <==>
            match step
            case Check(at) => PassedBy(s.lease, at) && !PassedBy(s.lease, s.now)
            case Tick(to) =>
              exists c :: c in s.grants && to <= s.grants[c] < s.now && (s.lease.owner != Some(c) || s.lease.stale)
            case _ => false
  {
    var t := Next(s, step);
    match step
    case Acquire(who, _, until) =>
      forall c | Live(t, c) ensures t.lease.owner == Some(c) && !t.lease.stale {
        if c != who {
          assert Live(s, c);
        }
      }
    case Renew(who, _, _) =>
      forall c | Live(t, c) ensures t.lease.owner == Some(c) && !t.lease.stale {
        if c != who {
          assert Live(s, c);
        }
      }
    case Release(who) =>
      forall c | Live(t, c) ensures t.lease.owner == Some(c) && !t.lease.stale {
        assert Live(s, c);
      }
    case Check(at) =>
      if PassedBy(s.lease, at) && !PassedBy(s.lease, s.now) {
        assert Live(t, s.lease.owner.value);
      }
      forall c | Live(t, c) ensures Live(s, c) {}
    case Tick(to) =>
      if c :| c in s.grants && to <= s.grants[c] < s.now && (s.lease.owner != Some(c) || s.lease.stale) {
        assert Live(t, c);
      }
      forall c | Live(t, c) && (t.lease.owner != Some(c) || t.lease.stale) ensures s.grants[c] < s.now {
        assert !Live(s, c);
      }
  }

  /** So timely steps keep every live grant guarded, from any state that does. */
  lemma {:induction false} TimelyRunsGuard(s: State, steps: seq<Step>)
    requires Ledger(s) && Guarded(s) && AllTimely(s, steps)
    ensures Ledger(Exec(s, steps)) && Guarded(Exec(s, steps))
  {
    if steps != [] {
      TimelyRunsGuard(s, steps[..|steps| - 1]);
      StepBreaksIff(Exec(s, steps[..|steps| - 1]), steps[|steps| - 1]);
    }
  }

  // ---- Mutual exclusion --------------------------------------------------

  /** Over any timely run, no two clients both hold an unreleased, unexpired grant. */
  lemma MutualExclusion(steps: seq<Step>, a: string, b: string)
    requires AllTimely(START, steps)
    requires var s := Exec(START, steps); Live(s, a) && Live(s, b)
    ensures a == b
  {
    TimelyRunsGuard(START, steps);
  }

  /** An owner loses the lease to another client only after the time of its latest
      grant has passed. */
  lemma DisplacedAfterExpiry(steps: seq<Step>, step: Step, a: string)
    requires AllTimely(START, steps)
    requires var s := Exec(START, steps);
             s.lease.owner == Some(a) && Next(s, step).lease.owner.Some? && Next(s, step).lease.owner != Some(a)
    ensures var s := Exec(START, steps);
            a in s.grants && s.grants[a] < s.now && s.lease.stale && s.lease.leasedUntil == Some(s.grants[a])
  {
    TimelyRunsGuard(START, steps);
    assert !Live(Exec(START, steps), a);
  }

  /** A client's grant stays its own until it is released or expires: acquiring it
      away is refused to everybody else. */
  lemma GrantIsProtected(steps: seq<Step>, a: string, b: string)
    requires AllTimely(START, steps) && a != b
    requires Live(Exec(START, steps), a)
    ensures var l := Exec(START, steps).lease;
            AcquireOutcome(l, b) == AlreadyHeld(a) && RenewOutcome(l, b).OwnerMismatch? && ReleaseOutcome(l, b).OwnerMismatch?
  {
    TimelyRunsGuard(START, steps);
  }

  // ---- Exactly when exclusion fails --------------------------------------

  /** In any state at all: an acquire can produce two live grants if and only if a
      live grant is unguarded. */
  lemma AcquireBreaksIff(s: State)
    ensures (exists who, id, until :: TwoLive(Next(s, Acquire(who, id, until)))) <==> !Guarded(s)
  {
    if !Guarded(s) {
      var c :| Live(s, c) && (s.lease.owner != Some(c) || s.lease.stale);
      var who := if s.lease.owner.Some? && s.lease.owner != Some(c) then s.lease.owner.value else c + "'";
      var t := Next(s, Acquire(who, "", s.now));
      assert Live(t, c) && Live(t, who);
      assert TwoLive(t);
    }
    forall who, id, until | TwoLive(Next(s, Acquire(who, id, until))) ensures !Guarded(s) {
      var t := Next(s, Acquire(who, id, until));
      var a, b :| a != b && Live(t, a) && Live(t, b);
      var c := if a == who then b else a;
      assert Live(s, c);
    }
  }

  lemma {:induction false} ExecSnoc(s: State, steps: seq<Step>, step: Step)
    ensures Exec(s, steps + [step]) == Next(Exec(s, steps), step)
    ensures AllTimely(s, steps + [step]) <==> AllTimely(s, steps) && Timely(Exec(s, steps), step)
  {
    assert (steps + [step])[..|steps|] == steps;
  }

  /** After any run, timely or not: exclusion holds from here on for as long as the
      steps are timely if and only if every live grant is guarded now. */
  lemma ExclusionIff(steps: seq<Step>)
    ensures var s := Exec(START, steps);
            (forall more :: AllTimely(s, more) ==> !TwoLive(Exec(s, more))) <==> Guarded(s)
  {
    var s := Exec(START, steps);
    LedgerRuns(steps);
    if Guarded(s) {
      forall more | AllTimely(s, more) ensures !TwoLive(Exec(s, more)) {
        TimelyRunsGuard(s, more);
      }
    } else {
      AcquireBreaksIff(s);
      var who, id, until :| TwoLive(Next(s, Acquire(who, id, until)));
      ExecSnoc(s, [], Acquire(who, id, until));
      assert AllTimely(s, [] + [Acquire(who, id, until)]);
    }
  }

  /** One check with a future time is enough for two live grants. */
  lemma FutureCheckBreaksExclusion(a: string, b: string, id: string) returns (steps: seq<Step>, s: State)
    requires a != b
    ensures s == Exec(START, steps) && Live(s, a) && Live(s, b)
    ensures forall t :: Tick(t) !in steps
  {
    steps, s := [], START;
    steps, s := Then(steps, s, Acquire(a, id, 10));
    steps, s := Then(steps, s, Check(11));
    steps, s := Then(steps, s, Acquire(b, id, 20));
  }

  /** So is a clock set back, with every check made at the time it is. */
  lemma ClockBackBreaksExclusion(a: string, b: string, id: string) returns (steps: seq<Step>, s: State)
    requires a != b
    ensures s == Exec(START, steps) && Live(s, a) && Live(s, b)
    ensures steps == [Acquire(a, id, 10), Tick(11), Check(11), Acquire(b, id, 20), Tick(5)]
  {
    steps, s := [], START;
    steps, s := Then(steps, s, Acquire(a, id, 10));
    steps, s := Then(steps, s, Tick(11));
    steps, s := Then(steps, s, Check(11));
    steps, s := Then(steps, s, Acquire(b, id, 20));
    steps, s := Then(steps, s, Tick(5));
  }

  lemma Then(steps: seq<Step>, s: State, step: Step) returns (steps': seq<Step>, s': State)
    requires s == Exec(START, steps)
    ensures steps' == steps + [step] && s' == Next(s, step) == Exec(START, steps')
  {
    steps', s' := steps + [step], Next(s, step);
    ExecSnoc(START, steps, step);
  }
}
