/** Wave scheduling (scheduler.rs): greedy list scheduling of unit tasks with a
    per-wave cap, its exact coverage, and Graham's bound on the number of waves. */
module Scheduling {
  import opened Dag
  import opened Sequences

  type Waves = seq<seq<TaskId>>

  datatype Schedule = Schedule(parallelGroups: Waves, totalTasks: nat, unscheduled: seq<TaskId>)

  /** All tasks that appear in some wave. */
  function Done(waves: Waves): set<TaskId> {
    set k, t | 0 <= k < |waves| && t in waves[k] :: t
  }

  function Min(a: nat, b: nat): nat {
    if a < b then a else b
  }

  // ---- What a schedule must satisfy, with no algorithm in sight ----------

  /** At most m tasks a wave, registered, and every dependency strictly earlier. */
  ghost predicate Feasible(g: Graph, m: nat, waves: Waves) {
    forall k :: 0 <= k < |waves| ==> FeasibleWave(g, m, Done(waves[..k]), waves[k])
  }

  ghost predicate FeasibleWave(g: Graph, m: nat, before: set<TaskId>, wave: seq<TaskId>) {
    && |wave| <= m
    && forall t :: t in wave ==> t in g && forall d :: d in g[t] ==> d in before
  }

  /** No task runs twice. */
  ghost predicate Disjoint(waves: Waves) {
    forall k :: 0 <= k < |waves| ==> NoDup(waves[k]) && Done(waves[..k]) !! Elems(waves[k])
  }

  // ---- What build_schedule produces --------------------------------------

  /** A wave takes min(m, |ready|) of the tasks that are ready, in any order. */
  ghost predicate GreedyWave(g: Graph, m: nat, before: set<TaskId>, wave: seq<TaskId>) {
    && wave != [] && NoDup(wave)
    && Elems(wave) <= Ready(g, before)
    && |wave| == Min(m, |Ready(g, before)|)
  }

  ghost predicate Greedy(g: Graph, m: nat, waves: Waves) {
    forall k :: 0 <= k < |waves| ==> GreedyWave(g, m, Done(waves[..k]), waves[k])
  }

  /** Greedy waves that go on until nothing is ready (or the cap allows nothing). */
  ghost predicate Built(g: Graph, m: nat, s: Schedule) {
    && Greedy(g, m, s.parallelGroups)
    && (m == 0 || Ready(g, Done(s.parallelGroups)) == {})
    && NoDup(s.unscheduled)
    && Elems(s.unscheduled) == g.Keys - Done(s.parallelGroups)
    && s.totalTasks == |g|
  }

  class Scheduler {
    const graph: DagGraph
    const maxConcurrentPeers: nat

    constructor (maxConcurrent: nat)
      ensures fresh(graph) && graph.dependencies == map[] && graph.dependents == map[]
      ensures maxConcurrentPeers == maxConcurrent
    {
      graph := new DagGraph();
      maxConcurrentPeers := maxConcurrent;
    }

    method BuildSchedule() returns (s: Schedule)
      ensures Built(graph.dependencies, maxConcurrentPeers, s)
    {
      ghost var g, m := graph.dependencies, maxConcurrentPeers;
      var completed, groups := {}, [];
      while true
        invariant graph.dependencies == g
        invariant completed == Done(groups) <= g.Keys
        invariant Greedy(g, m, groups)
        decreases g.Keys - completed
      {
        var ready := graph.ReadyTasks(completed);
        NoDupSize(ready);
        if ready == [] {
          break;
        }
        var wave := ready[..Min(maxConcurrentPeers, |ready|)];
        if wave == [] {
          break;
        }
        assert wave[0] in Ready(g, completed);
        ghost var groups0, completed0 := groups, completed;
        for i := 0 to |wave|
          invariant completed == completed0 + Elems(wave[..i])
        {
          completed := completed + {wave[i]};
          assert wave[..i + 1] == wave[..i] + [wave[i]];
        }
        assert wave[..|wave|] == wave;
        groups := groups + [wave];
        DoneSnoc(groups0, wave);
        GreedySnoc(g, m, groups0, wave);
        assert wave[0] in completed && wave[0] !in completed0;
      }
      assert m == 0 || Ready(g, completed) == {};

      var unscheduled, rest := [], graph.dependencies.Keys;
      while rest != {}
        invariant rest <= g.Keys
        invariant NoDup(unscheduled)
        invariant forall t :: t in unscheduled <==> t in g.Keys - completed && t !in rest
      {
        var id :| id in rest;
        rest := rest - {id};
        if id !in completed {
          unscheduled := unscheduled + [id];
        }
      }
      s := Schedule(groups, |graph.dependencies|, unscheduled);
    }
  }

  // ---- Waves and prefixes ------------------------------------------------

  lemma DoneSnoc(waves: Waves, w: seq<TaskId>)
    ensures Done(waves + [w]) == Done(waves) + Elems(w)
  {
    var all := waves + [w];
    forall t ensures t in Done(all) <==> t in Done(waves) + Elems(w) {
      if t in Done(waves) {
        var k :| 0 <= k < |waves| && t in waves[k];
        assert t in all[k];
      }
      if t in w {
        assert t in all[|waves|];
      }
    }
  }

  lemma GreedySnoc(g: Graph, m: nat, waves: Waves, w: seq<TaskId>)
    requires Greedy(g, m, waves) && GreedyWave(g, m, Done(waves), w)
    ensures Greedy(g, m, waves + [w])
  {
    var all := waves + [w];
    forall k | 0 <= k < |all| ensures GreedyWave(g, m, Done(all[..k]), all[k]) {
      assert all[..k] == waves[..k];
      assert waves[..|waves|] == waves;
    }
  }

  lemma DonePrefix(waves: Waves, k: nat)
    requires k < |waves|
    ensures Done(waves[..k + 1]) == Done(waves[..k]) + Elems(waves[k])
  {
    assert waves[..k + 1] == waves[..k] + [waves[k]];
    DoneSnoc(waves[..k], waves[k]);
  }

  /** The wave in which a task of a prefix runs. */
  lemma WaveOf(waves: Waves, k: nat, t: TaskId) returns (j: nat)
    requires k <= |waves| && t in Done(waves[..k])
    ensures j < k && t in waves[j]
  {
    j :| 0 <= j < k && t in waves[..k][j];
  }

  lemma InPrefix(waves: Waves, j: nat, k: nat, t: TaskId)
    requires j < k <= |waves| && t in waves[j]
    ensures t in Done(waves[..k])
  {
    assert t in waves[..k][j];
  }

  lemma DoneMonotone(waves: Waves, j: nat, k: nat)
    requires j <= k <= |waves|
    ensures Done(waves[..j]) <= Done(waves[..k])
  {
    forall t | t in Done(waves[..j]) ensures t in Done(waves[..k]) {
      var i := WaveOf(waves, j, t);
      assert t in waves[..k][i];
    }
  }

  // ---- Safety of the greedy waves ----------------------------------------

  /** Every registered task lands in exactly one place, every wave is non-empty
      and within the cap, and dependencies run in strictly earlier waves. */
  lemma ScheduleIsSafe(g: Graph, m: nat, s: Schedule)
    requires Built(g, m, s)
    ensures Feasible(g, m, s.parallelGroups) && Disjoint(s.parallelGroups)
    ensures forall k :: 0 <= k < |s.parallelGroups| ==> 1 <= |s.parallelGroups[k]| <= m
    ensures Done(s.parallelGroups) + Elems(s.unscheduled) == g.Keys
    ensures Done(s.parallelGroups) !! Elems(s.unscheduled)
    ensures |Done(s.parallelGroups)| + |s.unscheduled| == s.totalTasks
  {
    var waves := s.parallelGroups;
    GreedyRegistered(g, m, waves);
    NoDupSize(s.unscheduled);
    assert Done(waves) + Elems(s.unscheduled) == g.Keys;
  }

  lemma GreedyRegistered(g: Graph, m: nat, waves: Waves)
    requires Greedy(g, m, waves)
    ensures Done(waves) <= g.Keys && Feasible(g, m, waves) && Disjoint(waves)
  {
    forall k | 0 <= k < |waves|
      ensures FeasibleWave(g, m, Done(waves[..k]), waves[k])
      ensures Elems(waves[k]) <= g.Keys && Done(waves[..k]) !! Elems(waves[k])
    {
      assert GreedyWave(g, m, Done(waves[..k]), waves[k]);
      forall t | t in waves[k] ensures t in Ready(g, Done(waves[..k])) {
        assert t in Elems(waves[k]);
      }
    }
    forall t | t in Done(waves) ensures t in g.Keys {
      var k :| 0 <= k < |waves| && t in waves[k];
      assert t in Elems(waves[k]);
    }
  }

  // ---- Which tasks can be scheduled at all -------------------------------

  /** A path out of wave k climbs down at least one wave per edge. */
  lemma {:induction false} PathDescends(g: Graph, m: nat, waves: Waves, p: seq<TaskId>, k: nat) returns (j: nat)
    requires Feasible(g, m, waves) && IsPath(g, p)
    requires k < |waves| && p[0] in waves[k]
    ensures j + |p| - 1 <= k && p[|p| - 1] in waves[j]
  {
    if |p| == 1 {
      return k;
    }
    assert Edge(g, p[0], p[1]);
    assert FeasibleWave(g, m, Done(waves[..k]), waves[k]);
    var i := WaveOf(waves, k, p[1]);
    TailIsPath(g, p);
    j := PathDescends(g, m, waves, p[1..], i);
  }

  lemma {:induction false} ScheduledNotCyclic(g: Graph, m: nat, waves: Waves, t: TaskId, k: nat)
    requires Feasible(g, m, waves) && k < |waves| && t in waves[k]
    ensures !Reaches(g, t, t)
  {
    if Reaches(g, t, t) {
      var p :| IsPath(g, p) && |p| >= 2 && p[0] == t && p[|p| - 1] == t;
      var j := PathDescends(g, m, waves, p, k);
      ScheduledNotCyclic(g, m, waves, t, j);
    }
  }

  /** No feasible schedule whatsoever can run a stuck task. */
  lemma StuckNeverRuns(g: Graph, m: nat, waves: Waves, t: TaskId)
    requires Feasible(g, m, waves) && t in Done(waves)
    ensures !Stuck(g, t)
  {
    var k :| 0 <= k < |waves| && t in waves[k];
    forall b | Leads(g, t, b) ensures b in g && !Reaches(g, b, b) {
      var j := k;
      if b != t {
        var p :| IsPath(g, p) && |p| >= 2 && p[0] == t && p[|p| - 1] == b;
        j := PathDescends(g, m, waves, p, k);
      }
      assert FeasibleWave(g, m, Done(waves[..j]), waves[j]);
      ScheduledNotCyclic(g, m, waves, b, j);
    }
  }

  lemma SubPath(g: Graph, p: seq<TaskId>, i: nat)
    requires IsPath(g, p) && i < |p|
    ensures IsPath(g, p[i..]) && IsPath(g, p[..i + 1])
  {
    forall k | 0 <= k < |p[i..]| - 1 ensures Edge(g, p[i..][k], p[i..][k + 1]) {
      assert Edge(g, p[i + k], p[i + k + 1]);
    }
    var q := p[..i + 1];
    forall k | 0 <= k < |q| - 1 ensures Edge(g, q[k], q[k + 1]) {
      assert Edge(g, p[k], p[k + 1]);
    }
  }

  lemma ExtendPath(g: Graph, p: seq<TaskId>, d: TaskId)
    requires IsPath(g, p) && Edge(g, p[|p| - 1], d)
    ensures IsPath(g, p + [d])
  {
    var q := p + [d];
    forall i | 0 <= i < |q| - 1 ensures Edge(g, q[i], q[i + 1]) {
      if i < |p| - 1 { assert Edge(g, p[i], p[i + 1]); }
    }
  }

  /** A path that steps back onto itself starts at a stuck task. */
  lemma LoopIsStuck(g: Graph, p: seq<TaskId>, i: nat)
    requires IsPath(g, p) && i < |p| && Edge(g, p[|p| - 1], p[i])
    ensures Stuck(g, p[0])
  {
    var q := p + [p[i]];
    ExtendPath(g, p, p[i]);
    SubPath(g, q, i);
    PathReaches(g, q[i..]);
    if i > 0 {
      PathReaches(g, q[..i + 1]);
    }
    assert Leads(g, p[0], p[i]);
  }

  /** Inside a finite set whose members each keep a dependency that is
      unregistered or back in the set, every walk ends up stuck. */
  lemma {:induction false} WalkGetsStuck(g: Graph, U: set<TaskId>, p: seq<TaskId>)
    requires IsPath(g, p) && NoDup(p) && Elems(p) <= U
    requires forall t :: t in U ==> t in g && exists d :: d in g[t] && (d in U || d !in g)
    ensures Stuck(g, p[0])
    decreases |U| - |p|
  {
    var last := p[|p| - 1];
    assert last in Elems(p);
    var d :| d in g[last] && (d in U || d !in g);
    if d in p {
      var i :| 0 <= i < |p| && p[i] == d;
      LoopIsStuck(g, p, i);
    } else {
      var q := p + [d];
      ExtendPath(g, p, d);
      if d !in g {
        PathReaches(g, q);
        assert Leads(g, p[0], d);
      } else {
        assert Elems(q) == Elems(p) + {d};
        NoDupSize(q);
        SubsetSize(Elems(q), U);
        WalkGetsStuck(g, U, q);
      }
    }
  }

  lemma SubsetSize<T>(a: set<T>, b: set<T>)
    requires a <= b
    ensures |a| <= |b|
    ensures |a| == |b| ==> a == b
  {
    assert b == a + (b - a);
  }

  /** unscheduled is exactly the set of stuck tasks, whatever the map order. */
  lemma UnscheduledIsStuck(g: Graph, m: nat, s: Schedule)
    requires Built(g, m, s) && m >= 1
    ensures forall t :: t in s.unscheduled <==> t in g && Stuck(g, t)
  {
    var waves := s.parallelGroups;
    GreedyRegistered(g, m, waves);
    var U := g.Keys - Done(waves);
    assert forall t :: t in s.unscheduled <==> t in Elems(s.unscheduled);
    forall t | t in g && Stuck(g, t) ensures t in U {
      if t in Done(waves) {
        StuckNeverRuns(g, m, waves, t);
      }
    }
    forall t | t in U ensures t in g && exists d :: d in g[t] && (d in U || d !in g) {
      assert t !in Ready(g, Done(waves));
    }
    forall t | t in U ensures Stuck(g, t) {
      assert IsPath(g, [t]);
      WalkGetsStuck(g, U, [t]);
    }
  }

  /** Everything is scheduled exactly when the graph is closed and acyclic. */
  lemma AllScheduledIff(g: Graph, m: nat, s: Schedule)
    requires Built(g, m, s) && m >= 1
    ensures s.unscheduled == [] <==> AllRegistered(g) && !Cyclic(g)
  {
    assert |s.unscheduled| > 0 ==> s.unscheduled[0] in s.unscheduled;
    UnscheduledIsStuck(g, m, s);
    if AllRegistered(g) && !Cyclic(g) {
      forall t | t in g ensures !Stuck(g, t) {
        forall b | Leads(g, t, b) ensures b in g {
          if b != t {
            var p :| IsPath(g, p) && |p| >= 2 && p[0] == t && p[|p| - 1] == b;
            assert Edge(g, p[|p| - 2], p[|p| - 2 + 1]);
          }
        }
      }
    } else if Cyclic(g) {
      RegisteredCycle(g);
      var t :| t in g && Reaches(g, t, t);
      assert Leads(g, t, t);
    } else {
      var a, b :| Edge(g, a, b) && b !in g;
      EdgeReaches(g, a, b);
      assert Leads(g, a, b);
    }
  }

  /** A cap of zero schedules nothing at all. */
  lemma ZeroCap(g: Graph, s: Schedule)
    requires Built(g, 0, s)
    ensures s.parallelGroups == [] && Elems(s.unscheduled) == g.Keys
  {
    var waves := s.parallelGroups;
    assert |waves| > 0 ==> GreedyWave(g, 0, Done(waves[..0]), waves[0]);
  }

  /** With a cap, no feasible schedule runs a task the greedy one leaves out. */
  lemma GreedyIsMaximal(g: Graph, m: nat, s: Schedule, m': nat, other: Waves)
    requires Built(g, m, s) && m >= 1 && Feasible(g, m', other)
    ensures Done(other) <= Done(s.parallelGroups)
  {
    UnscheduledIsStuck(g, m, s);
    forall t | t in Done(other) ensures t in Done(s.parallelGroups) {
      StuckNeverRuns(g, m', other, t);
      var k :| 0 <= k < |other| && t in other[k];
      assert FeasibleWave(g, m', Done(other[..k]), other[k]);
      assert t in g && t !in s.unscheduled;
      assert t !in Elems(s.unscheduled);
    }
  }

  // ---- Lower bounds on any schedule --------------------------------------

  /** A dependency chain among the tasks of S. */
  ghost predicate Chain(g: Graph, S: set<TaskId>, p: seq<TaskId>) {
    p == [] || (IsPath(g, p) && Elems(p) <= S)
  }

  lemma ChainNeedsWaves(g: Graph, m: nat, waves: Waves, p: seq<TaskId>)
    requires Feasible(g, m, waves) && Chain(g, Done(waves), p)
    ensures |p| <= |waves|
  {
    if p != [] {
      assert p[0] in Elems(p);
      var k :| 0 <= k < |waves| && p[0] in waves[k];
      var j := PathDescends(g, m, waves, p, k);
    }
  }

  lemma ElemsSize<T>(s: seq<T>)
    ensures |Elems(s)| <= |s|
  {
    if s != [] {
      var init, x := s[..|s| - 1], s[|s| - 1];
      assert s == init + [x];
      assert Elems(s) == Elems(init) + {x};
      ElemsSize(init);
    }
  }

  lemma FeasiblePrefix(g: Graph, m: nat, waves: Waves, k: nat)
    requires Feasible(g, m, waves) && k <= |waves|
    ensures Feasible(g, m, waves[..k])
  {
    var init := waves[..k];
    forall i | 0 <= i < k ensures FeasibleWave(g, m, Done(init[..i]), init[i]) {
      assert init[..i] == waves[..i];
    }
  }

  lemma UnionSize<T>(a: set<T>, b: set<T>)
    ensures |a + b| <= |a| + |b|
    ensures a !! b ==> |a + b| == |a| + |b|
  {
    assert a + b == a + (b - a);
  }

  lemma TimesStep(m: nat, k: nat)
    ensures m * (k + 1) == m * k + m
  {
  }

  lemma {:induction false} TasksNeedWaves(g: Graph, m: nat, waves: Waves)
    requires Feasible(g, m, waves)
    ensures |Done(waves)| <= m * |waves|
  {
    if waves != [] {
      var k := |waves| - 1;
      FeasiblePrefix(g, m, waves, k);
      TasksNeedWaves(g, m, waves[..k]);
      DonePrefix(waves, k);
      assert waves[..k + 1] == waves;
      assert FeasibleWave(g, m, Done(waves[..k]), waves[k]);
      ElemsSize(waves[k]);
      UnionSize(Done(waves[..k]), Elems(waves[k]));
      TimesStep(m, k);
    }
  }

  // ---- Graham's upper bound ----------------------------------------------

  /** How many of the waves leave slots unused. */
  ghost function Partial(m: nat, waves: Waves): nat {
    if waves == [] then 0
    else Partial(m, waves[..|waves| - 1]) + if |waves[|waves| - 1]| < m then 1 else 0
  }

  lemma PartialPrefix(m: nat, waves: Waves, k: nat)
    requires k < |waves|
    ensures Partial(m, waves[..k + 1]) == Partial(m, waves[..k]) + if |waves[k]| < m then 1 else 0
  {
    assert waves[..k + 1][..k] == waves[..k];
  }

  lemma {:induction false} PartialMonotone(m: nat, waves: Waves, j: nat, k: nat)
    requires j <= k <= |waves|
    ensures Partial(m, waves[..j]) <= Partial(m, waves[..k])
  {
    if j < k {
      PartialPrefix(m, waves, k - 1);
      PartialMonotone(m, waves, j, k - 1);
    }
  }

  /** The last partial wave before wave k. */
  lemma {:induction false} LastPartial(m: nat, waves: Waves, k: nat) returns (i: nat)
    requires k <= |waves| && Partial(m, waves[..k]) > 0
    ensures i < k && |waves[i]| < m
    ensures Partial(m, waves[..k]) == Partial(m, waves[..i]) + 1
  {
    PartialPrefix(m, waves, k - 1);
    if |waves[k - 1]| < m {
      i := k - 1;
    } else {
      i := LastPartial(m, waves, k - 1);
    }
  }

  /** A partial wave empties the ready set. */
  lemma PartialTakesAll(g: Graph, m: nat, waves: Waves, i: nat)
    requires Greedy(g, m, waves) && i < |waves| && |waves[i]| < m
    ensures Elems(waves[i]) == Ready(g, Done(waves[..i]))
  {
    assert GreedyWave(g, m, Done(waves[..i]), waves[i]);
    NoDupSize(waves[i]);
    SubsetSize(Elems(waves[i]), Ready(g, Done(waves[..i])));
  }

  /** A task run after a partial wave waited for a dependency that itself ran
      no earlier than that wave. */
  lemma Waited(g: Graph, m: nat, waves: Waves, k: nat, t: TaskId, i: nat) returns (d: TaskId, j: nat)
    requires Greedy(g, m, waves) && k < |waves| && t in waves[k]
    requires i < k && |waves[i]| < m
    ensures Edge(g, t, d) && i <= j < k && d in waves[j]
  {
    GreedyRegistered(g, m, waves);
    PartialTakesAll(g, m, waves, i);
    assert FeasibleWave(g, m, Done(waves[..k]), waves[k]);
    assert t in Elems(waves[k]);
    assert t !in Done(waves[..k]);
    DoneMonotone(waves, i + 1, k);
    DonePrefix(waves, i);
    assert t !in Ready(g, Done(waves[..i]));
    assert t !in Done(waves[..i]);
    d :| d in g[t] && d !in Done(waves[..i]);
    j := WaveOf(waves, k, d);
    if j < i {
      InPrefix(waves, j, i, d);
    }
  }

  /** Behind every task stands a chain with one node per earlier partial wave. */
  lemma {:induction false} ChainBehind(g: Graph, m: nat, waves: Waves, k: nat, t: TaskId) returns (p: seq<TaskId>)
    requires Greedy(g, m, waves) && k < |waves| && t in waves[k]
    ensures IsPath(g, p) && Elems(p) <= Done(waves) && p[0] == t
    ensures |p| >= Partial(m, waves[..k]) + 1
  {
    if Partial(m, waves[..k]) == 0 {
      p := [t];
    } else {
      var i := LastPartial(m, waves, k);
      var d, j := Waited(g, m, waves, k, t, i);
      PartialMonotone(m, waves, i, j);
      var q := ChainBehind(g, m, waves, j, d);
      p := [t] + q;
      forall n | 0 <= n < |p| - 1 ensures Edge(g, p[n], p[n + 1]) {
        if n > 0 { assert Edge(g, q[n - 1], q[n - 1 + 1]); }
      }
      assert Elems(p) == {t} + Elems(q);
    }
  }

  lemma GreedyPrefix(g: Graph, m: nat, waves: Waves, k: nat)
    requires Greedy(g, m, waves) && k <= |waves|
    ensures Greedy(g, m, waves[..k])
  {
    var init := waves[..k];
    forall i | 0 <= i < k ensures GreedyWave(g, m, Done(init[..i]), init[i]) {
      assert init[..i] == waves[..i];
    }
  }

  /** A greedy wave adds exactly its length to what is done. */
  lemma GreedyGrowth(g: Graph, m: nat, waves: Waves, k: nat)
    requires Greedy(g, m, waves) && k < |waves|
    ensures |Done(waves[..k + 1])| == |Done(waves[..k])| + |waves[k]|
    ensures 1 <= |waves[k]| <= m
  {
    GreedyRegistered(g, m, waves);
    assert Done(waves[..k]) !! Elems(waves[k]);
    assert GreedyWave(g, m, Done(waves[..k]), waves[k]);
    NoDupSize(waves[k]);
    DonePrefix(waves, k);
    UnionSize(Done(waves[..k]), Elems(waves[k]));
  }

  /** Full waves account for m tasks each, partial ones for at least one. */
  lemma {:induction false} SlotsUsed(g: Graph, m: nat, waves: Waves)
    requires Greedy(g, m, waves)
    ensures Partial(m, waves) <= |waves|
    ensures |Done(waves)| >= m * (|waves| - Partial(m, waves)) + Partial(m, waves)
  {
    if waves != [] {
      var k := |waves| - 1;
      GreedyPrefix(g, m, waves, k);
      SlotsUsed(g, m, waves[..k]);
      GreedyGrowth(g, m, waves, k);
      assert waves[..k + 1] == waves;
      TimesStep(m, k - Partial(m, waves[..k]));
    }
  }

  /** Some chain of scheduled tasks is as long as the number of partial waves. */
  lemma PartialWavesChain(g: Graph, m: nat, waves: Waves) returns (p: seq<TaskId>)
    requires Greedy(g, m, waves)
    ensures Chain(g, Done(waves), p) && |p| >= Partial(m, waves)
  {
    assert waves[..|waves|] == waves;
    if Partial(m, waves) == 0 {
      p := [];
    } else {
      var i := LastPartial(m, waves, |waves|);
      assert GreedyWave(g, m, Done(waves[..i]), waves[i]);
      p := ChainBehind(g, m, waves, i, waves[i][0]);
    }
  }

  /** L is the length of a longest dependency chain among the tasks of S. */
  ghost predicate LongestChain(g: Graph, S: set<TaskId>, L: nat) {
    && (exists p :: Chain(g, S, p) && |p| == L)
    && forall p :: Chain(g, S, p) ==> |p| <= L
  }

  /** Chains of bounded length have a longest one; the empty chain always counts. */
  lemma {:induction false} LongestChainExists(g: Graph, S: set<TaskId>, bound: nat) returns (L: nat)
    requires forall p :: Chain(g, S, p) ==> |p| <= bound
    ensures LongestChain(g, S, L) && L <= bound
  {
    if exists p :: Chain(g, S, p) && |p| == bound {
      L := bound;
    } else {
      assert Chain(g, S, []);
      L := LongestChainExists(g, S, bound - 1);
    }
  }

  /** The slots of w waves, r of them partial, that hold s tasks in all. */
  ghost predicate SlotCount(m: nat, w: nat, r: nat, s: nat) {
    r <= w && s >= m * (w - r) + r
  }

  lemma SlackArithmetic(m: nat, w: nat, r: nat, L: nat, s: nat)
    requires m >= 1 && r <= L && SlotCount(m, w, r, s)
    ensures m * w <= s + (m - 1) * L
  {
    assert m * w == m * (w - r) + m * r;
    assert m * r == r + (m - 1) * r;
    assert (m - 1) * r <= (m - 1) * L;
  }

  lemma TimesMonotone(m: nat, a: nat, b: nat)
    requires a <= b
    ensures m * a <= m * b
  {
  }

  lemma FloorDivides(m: nat, s: nat)
    requires m >= 1
    ensures s < m * (s / m + 1)
  {
    assert s == m * (s / m) + s % m;
  }

  lemma FloorArithmetic(m: nat, w: nat, r: nat, L: nat, s: nat)
    requires m >= 1 && r <= L && SlotCount(m, w, r, s)
    ensures w <= s / m + L
  {
    FloorDivides(m, s);
    if s / m < w - r {
      TimesMonotone(m, s / m + 1, w - r);
    }
  }

  lemma FactorArithmetic(m: nat, w: nat, r: nat, o: nat, s: nat)
    requires m >= 1 && r <= o && SlotCount(m, w, r, s) && s <= m * o
    ensures m * w <= (2 * m - 1) * o
  {
    SlackArithmetic(m, w, r, o, s);
    assert m * o + (m - 1) * o == (2 * m - 1) * o;
  }

  /** The number of partial waves, bounded by any bound on chain lengths. */
  lemma PartialCount(g: Graph, m: nat, waves: Waves, L: nat) returns (r: nat)
    requires Greedy(g, m, waves)
    requires forall p :: Chain(g, Done(waves), p) ==> |p| <= L
    ensures r <= L && SlotCount(m, |waves|, r, |Done(waves)|)
  {
    r := Partial(m, waves);
    var p := PartialWavesChain(g, m, waves);
    SlotsUsed(g, m, waves);
  }

  /** Graham's bound: m waves' worth of slots cover the work plus, for every
      link of the longest chain, at most m - 1 idle slots. */
  lemma GrahamBound(g: Graph, m: nat, s: Schedule, L: nat)
    requires Built(g, m, s) && m >= 1 && LongestChain(g, Done(s.parallelGroups), L)
    ensures m * |s.parallelGroups| <= |Done(s.parallelGroups)| + (m - 1) * L
    ensures |s.parallelGroups| <= |Done(s.parallelGroups)| / m + L
  {
    var r := PartialCount(g, m, s.parallelGroups, L);
    SlackArithmetic(m, |s.parallelGroups|, r, L, |Done(s.parallelGroups)|);
    FloorArithmetic(m, |s.parallelGroups|, r, L, |Done(s.parallelGroups)|);
  }

  /** The greedy schedule is within a factor 2 - 1/m of every feasible schedule
      of the same tasks under the same cap. */
  lemma WithinFactorTwo(g: Graph, m: nat, s: Schedule, other: Waves)
    requires Built(g, m, s) && m >= 1
    requires Feasible(g, m, other) && Done(other) == Done(s.parallelGroups)
    ensures m * |s.parallelGroups| <= (2 * m - 1) * |other|
  {
    forall p | Chain(g, Done(other), p) ensures |p| <= |other| {
      ChainNeedsWaves(g, m, other, p);
    }
    var r := PartialCount(g, m, s.parallelGroups, |other|);
    TasksNeedWaves(g, m, other);
    FactorArithmetic(m, |s.parallelGroups|, r, |other|, |Done(other)|);
  }

  /** Any schedule of the same tasks needs max(ceil(s / m), L) waves. */
  lemma LowerBound(g: Graph, m: nat, other: Waves, L: nat)
    requires Feasible(g, m, other) && LongestChain(g, Done(other), L)
    ensures L <= |other| && |Done(other)| <= m * |other|
  {
    var p :| Chain(g, Done(other), p) && |p| == L;
    ChainNeedsWaves(g, m, other, p);
    TasksNeedWaves(g, m, other);
  }

  /** The greedy schedule pinned between the two bounds: with L the longest chain
      and s the number of its tasks, no feasible schedule of them is shorter than
      max(ceil(s / m), L), and the greedy one is no longer than floor(s / m) + L. */
  lemma GreedyBetweenBounds(g: Graph, m: nat, s: Schedule) returns (L: nat)
    requires Built(g, m, s) && m >= 1
    ensures LongestChain(g, Done(s.parallelGroups), L)
    ensures L <= |s.parallelGroups| <= |Done(s.parallelGroups)| / m + L
    ensures forall other :: Feasible(g, m, other) && Done(other) == Done(s.parallelGroups) ==>
              L <= |other| && |Done(s.parallelGroups)| <= m * |other|
  {
    var waves := s.parallelGroups;
    GreedyRegistered(g, m, waves);
    forall p | Chain(g, Done(waves), p) ensures |p| <= |waves| {
      ChainNeedsWaves(g, m, waves, p);
    }
    L := LongestChainExists(g, Done(waves), |waves|);
    GrahamBound(g, m, s, L);
    forall other | Feasible(g, m, other) && Done(other) == Done(waves)
      ensures L <= |other| && |Done(waves)| <= m * |other|
    {
      LowerBound(g, m, other, L);
    }
  }
}
