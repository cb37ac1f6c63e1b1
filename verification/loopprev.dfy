/** Loop prevention (loopprev.rs): a reject window kept by pruning on every
    record, and an escalation trigger with a cooldown. Times are whole seconds. */
module LoopPrev {
  import opened Options

  const WINDOW_SECS: int := 3600
  const TRIGGER_THRESHOLD: nat := 3
  const COOLDOWN_SECS: int := 600

  datatype Key = Key(taskNodeId: string, revision: nat)

  /** retain: the entries at most a window older than now, in order. */
  function Keep(v: seq<int>, now: int): seq<int> {
    if v == [] then []
    else
      var kept, x := Keep(v[..|v| - 1], now), v[|v| - 1];
      if now - x <= WINDOW_SECS then kept + [x] else kept
  }

  function Entry(rejects: map<Key, seq<int>>, key: Key): seq<int> {
    if key in rejects then rejects[key] else []
  }

  class LoopPrevention {
    var rejects: map<Key, seq<int>>
    var lastTrigger: map<Key, int>

    function Value(): State
      reads this
    {
      State(rejects, lastTrigger)
    }

    constructor ()
      ensures Value() == EMPTY
    {
      rejects, lastTrigger := map[], map[];
    }

    /** at is the parsed timestamp; one that does not parse counts as now. */
    method RecordReject(key: Key, at: Option<int>, now: int)
      modifies this
      ensures Value() == Next(old(Value()), Record(key, if at.Some? then at.value else now))
    {
      var t := if at.Some? then at.value else now;
      var v := Entry(rejects, key) + [t];
      rejects := rejects[key := v];
      rejects := rejects[key := Keep(v, t)];
    }

    function CountInWindow(key: Key): nat
      reads this
    {
      |Entry(rejects, key)|
    }

    method ShouldEscalate(key: Key, now: int) returns (fire: bool)
      modifies this
      ensures fire == Fires(old(Value()), key, now)
      ensures Value() == Next(old(Value()), Escalate(key, now))
    {
      if CountInWindow(key) <= TRIGGER_THRESHOLD {
        return false;
      }
      if key in lastTrigger {
        if now - lastTrigger[key] < COOLDOWN_SECS {
          return false;
        }
      }
      lastTrigger := lastTrigger[key := now];
      return true;
    }
  }

  // ---- Runs of operations ------------------------------------------------

  datatype State = State(rejects: map<Key, seq<int>>, lastTrigger: map<Key, int>)

  const EMPTY := State(map[], map[])

  datatype Op = Record(key: Key, at: int) | Escalate(key: Key, now: int)

  predicate Fires(s: State, key: Key, now: int) {
    |Entry(s.rejects, key)| > TRIGGER_THRESHOLD &&
    (key in s.lastTrigger ==> now - s.lastTrigger[key] >= COOLDOWN_SECS)
  }

  function Next(s: State, op: Op): State {
    match op
    case Record(key, at) => s.(rejects := s.rejects[key := Keep(Entry(s.rejects, key) + [at], at)])
    case Escalate(key, now) => if Fires(s, key, now) then s.(lastTrigger := s.lastTrigger[key := now]) else s
  }

  function Exec(ops: seq<Op>): State {
    if ops == [] then EMPTY else Next(Exec(ops[..|ops| - 1]), ops[|ops| - 1])
  }

  // ---- The window, without pruning: an hour, 600 seconds, more than three -

  /** All times recorded under a key, oldest record first. */
  function Recorded(ops: seq<Op>, key: Key): seq<int> {
    if ops == [] then []
    else
      var ts, op := Recorded(ops[..|ops| - 1], key), ops[|ops| - 1];
      if op.Record? && op.key == key then ts + [op.at] else ts
  }

  /** Record i has not fallen out of the window of any later record. */
  predicate Alive(ts: seq<int>, i: nat)
    requires i < |ts|
  {
    forall j :: i <= j < |ts| ==> ts[j] - ts[i] <= 3600
  }

  /** The first n records that are still alive, in order. */
  function Survivors(ts: seq<int>, n: nat): seq<int>
    requires n <= |ts|
  {
    if n == 0 then []
    else if Alive(ts, n - 1) then Survivors(ts, n - 1) + [ts[n - 1]]
    else Survivors(ts, n - 1)
  }

  lemma KeepSnoc(v: seq<int>, x: int, now: int)
    ensures Keep(v + [x], now) == if now - x <= 3600 then Keep(v, now) + [x] else Keep(v, now)
  {
    assert (v + [x])[..|v|] == v;
  }

  lemma AliveSnoc(ts: seq<int>, t: int, i: nat)
    requires i < |ts|
    ensures Alive(ts + [t], i) <==> Alive(ts, i) && t - ts[i] <= 3600
  {
    var all := ts + [t];
    assert all[|ts|] == t && forall j :: 0 <= j < |ts| ==> all[j] == ts[j];
  }

  /** Pruning at t leaves exactly what is alive once t is recorded too. */
  lemma {:induction false} PruneSurvivors(ts: seq<int>, t: int, n: nat)
    requires n <= |ts|
    ensures Keep(Survivors(ts, n), t) == Survivors(ts + [t], n)
  {
    if n > 0 {
      PruneSurvivors(ts, t, n - 1);
      AliveSnoc(ts, t, n - 1);
      if Alive(ts, n - 1) {
        KeepSnoc(Survivors(ts, n - 1), ts[n - 1], t);
      }
    }
  }

  /** For every run, in or out of time order: the list kept for a key is exactly
      the recorded times that no later record on that key has outrun by more than
      the window. */
  lemma {:induction false} WindowIsHistory(ops: seq<Op>, key: Key)
    ensures var ts := Recorded(ops, key); Entry(Exec(ops).rejects, key) == Survivors(ts, |ts|)
  {
    if ops != [] {
      var init, op := ops[..|ops| - 1], ops[|ops| - 1];
      WindowIsHistory(init, key);
      if op.Record? && op.key == key {
        var ts := Recorded(init, key);
        PruneSurvivors(ts, op.at, |ts|);
        KeepSnoc(Survivors(ts, |ts|), op.at, op.at);
        assert Alive(ts + [op.at], |ts|);
      }
    }
  }

  /** With records in time order the window is simply the last hour of records. */
  lemma InOrderWindow(ts: seq<int>, i: nat)
    requires i < |ts| && forall j, k :: 0 <= j < k < |ts| ==> ts[j] <= ts[k]
    ensures Alive(ts, i) <==> ts[|ts| - 1] - ts[i] <= 3600
  {
  }

  function Zeros(n: nat): (zs: seq<int>)
    ensures |zs| == n
  {
    if n == 0 then [] else Zeros(n - 1) + [0]
  }

  lemma {:induction false} KeepZeros(n: nat)
    ensures Keep(Zeros(n), 0) == Zeros(n)
  {
    if n > 0 {
      KeepZeros(n - 1);
      KeepSnoc(Zeros(n - 1), 0, 0);
    }
  }

  lemma {:induction false} RejectsAtZero(key: Key, n: nat) returns (ops: seq<Op>)
    ensures |ops| == n && forall op :: op in ops ==> op == Record(key, 0)
    ensures Entry(Exec(ops).rejects, key) == Zeros(n) && key !in Exec(ops).lastTrigger
  {
    if n == 0 {
      ops := [];
    } else {
      var init := RejectsAtZero(key, n - 1);
      ops := init + [Record(key, 0)];
      assert ops[..|ops| - 1] == init;
      KeepZeros(n);
    }
  }

  /** The window slides on records only: four rejects at time zero still fire, at
      any later time whatever, so silence never resets the count. */
  lemma QuietDoesNotReset(key: Key, now: int) returns (ops: seq<Op>)
    ensures |ops| == 4 && forall op :: op in ops ==> op == Record(key, 0)
    ensures Fires(Exec(ops), key, now)
  {
    ops := RejectsAtZero(key, 4);
  }

  // ---- How often escalation fires ----------------------------------------

  /** The times at which the trigger fired for a key, in call order. */
  function Fired(ops: seq<Op>, key: Key): seq<int> {
    if ops == [] then []
    else
      var init, op := ops[..|ops| - 1], ops[|ops| - 1];
      if op.Escalate? && op.key == key && Fires(Exec(init), key, op.now) then Fired(init, key) + [op.now]
      else Fired(init, key)
  }

  ghost predicate Spaced(ts: seq<int>) {
    forall i, j :: 0 <= i < j < |ts| ==> ts[j] - ts[i] >= 600
  }

  lemma SpacedSnoc(ts: seq<int>, t: int)
    requires Spaced(ts) && (ts != [] ==> t - ts[|ts| - 1] >= 600)
    ensures Spaced(ts + [t])
  {
  }

  /** Any two firings on a key are a cooldown apart, whatever the clock does. */
  lemma {:induction false} FiringsAreSpaced(ops: seq<Op>, key: Key)
    ensures var ts := Fired(ops, key);
            && Spaced(ts)
            && (ts != [] ==> key in Exec(ops).lastTrigger && Exec(ops).lastTrigger[key] == ts[|ts| - 1])
            && (ts == [] ==> key !in Exec(ops).lastTrigger)
  {
    if ops != [] {
      var init, op := ops[..|ops| - 1], ops[|ops| - 1];
      FiringsAreSpaced(init, key);
      if op.Escalate? && op.key == key && Fires(Exec(init), key, op.now) {
        SpacedSnoc(Fired(init, key), op.now);
      }
    }
  }

  function CountIn(ts: seq<int>, from: int, to: int): nat {
    if ts == [] then 0
    else CountIn(ts[..|ts| - 1], from, to) + if from <= ts[|ts| - 1] <= to then 1 else 0
  }

  /** Nothing beyond the largest element counts. */
  lemma {:induction false} CountShrinks(ts: seq<int>, from: int, to: int, hi: int)
    requires hi <= to && forall i :: 0 <= i < |ts| ==> ts[i] <= hi
    ensures CountIn(ts, from, to) == CountIn(ts, from, hi)
    ensures hi < from ==> CountIn(ts, from, to) == 0
  {
    if ts != [] {
      CountShrinks(ts[..|ts| - 1], from, to, hi);
    }
  }

  lemma {:induction false} SpacedCount(ts: seq<int>, from: int, to: int)
    requires Spaced(ts) && from <= to
    ensures CountIn(ts, from, to) <= (to - from) / 600 + 1
  {
    if ts != [] {
      var init, last := ts[..|ts| - 1], ts[|ts| - 1];
      if from <= last <= to {
        CountShrinks(init, from, to, last - 600);
        if from <= last - 600 {
          SpacedCount(init, from, last - 600);
        }
      } else {
        SpacedCount(init, from, to);
      }
    }
  }

  /** Any span of time holds at most span / 600 + 1 escalations of a key. */
  lemma RateBound(ops: seq<Op>, key: Key, from: int, to: int)
    requires from <= to
    ensures CountIn(Fired(ops, key), from, to) <= (to - from) / 600 + 1
  {
    FiringsAreSpaced(ops, key);
    SpacedCount(Fired(ops, key), from, to);
  }

  // ---- Exactly when it fires ---------------------------------------------

  /** The trigger never fired for the key, or last did a cooldown before now. */
  predicate Cooled(ops: seq<Op>, key: Key, now: int) {
    var ts := Fired(ops, key);
    ts == [] || now - ts[|ts| - 1] >= 600
  }

  /** The trigger fires exactly with more than three live records behind it and a
      cooldown after the last firing; the time of the call does not age the records. */
  lemma FiresIff(ops: seq<Op>, key: Key, now: int)
    ensures var ts := Recorded(ops, key);
            Fires(Exec(ops), key, now) <==> |Survivors(ts, |ts|)| > 3 && Cooled(ops, key, now)
  {
    WindowIsHistory(ops, key);
    FiringsAreSpaced(ops, key);
  }

  /** Nothing about the key: no reject recorded, no escalation asked for. */
  ghost predicate Silent(ops: seq<Op>, key: Key) {
    forall op :: op in ops ==> op.key != key
  }

  lemma {:induction false} SilenceKeeps(ops: seq<Op>, quiet: seq<Op>, key: Key)
    requires Silent(quiet, key)
    ensures Recorded(ops + quiet, key) == Recorded(ops, key) && Fired(ops + quiet, key) == Fired(ops, key)
  {
    if quiet == [] {
      assert ops + quiet == ops;
    } else {
      var init, op := quiet[..|quiet| - 1], quiet[|quiet| - 1];
      assert op in quiet;
      assert (ops + quiet)[..|ops + quiet| - 1] == ops + init;
      SilenceKeeps(ops, init, key);
    }
  }

  /** However long a key has been silent, the trigger fires exactly when the records
      before the silence number more than three and the cooldown is over. */
  lemma AfterSilenceIff(ops: seq<Op>, quiet: seq<Op>, key: Key, now: int)
    requires Silent(quiet, key)
    ensures var ts := Recorded(ops, key);
            Fires(Exec(ops + quiet), key, now) <==> |Survivors(ts, |ts|)| > 3 && Cooled(ops, key, now)
  {
    SilenceKeeps(ops, quiet, key);
    FiresIff(ops + quiet, key, now);
  }

  /** After a firing, silence alone lets the trigger fire again, and exactly from 600
      seconds on: no further reject is needed, and no quiet hour resets the count. */
  lemma SilenceReArmsIff(ops: seq<Op>, quiet: seq<Op>, key: Key, last: int, now: int)
    requires Fires(Exec(ops), key, last) && Silent(quiet, key)
    ensures Fires(Exec(ops + [Escalate(key, last)] + quiet), key, now) <==> now - last >= 600
  {
    var fired := ops + [Escalate(key, last)];
    assert fired[..|ops|] == ops;
    FiresIff(ops, key, last);
    AfterSilenceIff(fired, quiet, key, now);
  }

  /** What the comments ask for, a count that ages with the clock: the kept records
      still within the window at the time of the call. */
  function Current(ops: seq<Op>, key: Key, now: int): seq<int> {
    var ts := Recorded(ops, key);
    Keep(Survivors(ts, |ts|), now)
  }

  lemma {:induction false} KeepAll(v: seq<int>, now: int)
    ensures |Keep(v, now)| <= |v|
    ensures |Keep(v, now)| == |v| <==> forall i :: 0 <= i < |v| ==> now - v[i] <= 3600
  {
    if v != [] {
      var init := v[..|v| - 1];
      KeepAll(init, now);
      assert forall i :: 0 <= i < |init| ==> init[i] == v[i];
      if |Keep(v, now)| == |v| {
        assert forall i :: 0 <= i < |init| ==> now - init[i] <= 3600;
        assert now - v[|v| - 1] <= 3600;
      }
    }
  }

  /** A trigger that counted by the clock would fire on more than three current
      records after the cooldown. The code does the same except exactly when the
      cooldown is over and its surplus over three consists of records that have left
      the window since the last reject pruned it. */
  lemma AgesByTheClockIff(ops: seq<Op>, key: Key, now: int)
    ensures var ts := Recorded(ops, key);
            var kept := Survivors(ts, |ts|);
            && ((Fires(Exec(ops), key, now) <==> |Current(ops, key, now)| > 3 && Cooled(ops, key, now)) <==>
                !(Cooled(ops, key, now) && |Current(ops, key, now)| <= 3 < |kept|))
            && (|Current(ops, key, now)| < |kept| <==> exists i :: 0 <= i < |kept| && now - kept[i] > 3600)
  {
    FiresIff(ops, key, now);
    var ts := Recorded(ops, key);
    KeepAll(Survivors(ts, |ts|), now);
  }
}
