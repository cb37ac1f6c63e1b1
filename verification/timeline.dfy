/** Timeline projection (timeline_projection.rs): collapse the rows of one tool
    call into one entry, then merge runs of contiguous assistant chunks. */
module Timeline {
  datatype TimelineItem =
    | Assistant(text: string)
    | ToolCall(callId: string, name: string)
    | System(note: string)

  datatype TimelineRow = TimelineRow(seq_: nat, item: TimelineItem)

  /** The two labels an entry may carry: "tool_lifecycle" and "assistant_merge". */
  datatype Mark = ToolLifecycle | AssistantMerge

  datatype ProjectionEntry = ProjectionEntry(
    seqStart: nat,
    seqEnd: nat,
    item: TimelineItem,
    collapsed: seq<Mark>,
    sourceSeqs: seq<nat>)

  function Max(a: nat, b: nat): nat {
    if a < b then b else a
  }

  // ---- Grouping by call id, declaratively --------------------------------

  predicate SameCall(a: TimelineRow, b: TimelineRow) {
    a.item.ToolCall? && b.item.ToolCall? && a.item.callId == b.item.callId
  }

  /** Row k opens an entry: it is no tool row, or the first of its call. */
  predicate IsHead(rows: seq<TimelineRow>, k: nat)
    requires k < |rows|
  {
    forall j :: 0 <= j < k ==> !SameCall(rows[j], rows[k])
  }

  ghost predicate Below(ps: seq<nat>, n: nat) {
    forall i :: 0 <= i < |ps| ==> ps[i] < n
  }

  /** The positions that open entries, in row order. */
  function Heads(rows: seq<TimelineRow>): (hs: seq<nat>)
    ensures Below(hs, |rows|)
  {
    if rows == [] then []
    else
      var n := |rows| - 1;
      Heads(rows[..n]) + if IsHead(rows, n) then [n] else []
  }

  /** The positions that belong to the entry opened at h: h itself, and for a tool
      row every later row of the same call. */
  function Members(rows: seq<TimelineRow>, h: nat): (ms: seq<nat>)
    requires h < |rows|
    ensures Below(ms, |rows|) && |ms| >= 1
  {
    var n := |rows| - 1;
    if h == n then [h]
    else Members(rows[..n], h) + if SameCall(rows[h], rows[n]) then [n] else []
  }

  function SeqsAt(rows: seq<TimelineRow>, ps: seq<nat>): (ss: seq<nat>)
    requires Below(ps, |rows|)
    ensures |ss| == |ps|
  {
    if ps == [] then []
    else SeqsAt(rows, ps[..|ps| - 1]) + [rows[ps[|ps| - 1]].seq_]
  }

  function MaxOf(ss: seq<nat>): nat {
    if ss == [] then 0 else Max(MaxOf(ss[..|ss| - 1]), ss[|ss| - 1])
  }

  /** The entry for head h: its first number, the largest number of its members,
      the head's item, the mark when there is more than one member, all numbers. */
  function EntryAt(rows: seq<TimelineRow>, h: nat): ProjectionEntry
    requires h < |rows|
  {
    var ss := SeqsAt(rows, Members(rows, h));
    ProjectionEntry(rows[h].seq_, MaxOf(ss), rows[h].item, if |ss| > 1 then [ToolLifecycle] else [], ss)
  }

  function EntriesAt(rows: seq<TimelineRow>, hs: seq<nat>): (es: seq<ProjectionEntry>)
    requires Below(hs, |rows|)
    ensures |es| == |hs|
  {
    if hs == [] then []
    else EntriesAt(rows, hs[..|hs| - 1]) + [EntryAt(rows, hs[|hs| - 1])]
  }

  lemma {:induction false} EntriesAtIs(rows: seq<TimelineRow>, hs: seq<nat>, i: nat)
    requires Below(hs, |rows|) && i < |hs|
    ensures EntriesAt(rows, hs)[i] == EntryAt(rows, hs[i])
  {
    var n := |hs| - 1;
    if i < n {
      EntriesAtIs(rows, hs[..n], i);
    }
  }

  function Collapse(rows: seq<TimelineRow>): seq<ProjectionEntry> {
    EntriesAt(rows, Heads(rows))
  }

  // ---- One more row ------------------------------------------------------

  lemma {:induction false} HeadsIff(rows: seq<TimelineRow>, k: nat)
    requires k < |rows|
    ensures k in Heads(rows) <==> IsHead(rows, k)
  {
    var n := |rows| - 1;
    if k < n {
      HeadsIff(rows[..n], k);
    }
  }

  lemma {:induction false} HeadsIncrease(rows: seq<TimelineRow>)
    ensures forall i, j :: 0 <= i < j < |Heads(rows)| ==> Heads(rows)[i] < Heads(rows)[j]
  {
    if rows != [] {
      HeadsIncrease(rows[..|rows| - 1]);
    }
  }

  /** Members start at their head, increase, and are exactly the rows of its call. */
  lemma {:induction false} MembersAre(rows: seq<TimelineRow>, h: nat)
    requires h < |rows|
    ensures Members(rows, h)[0] == h
    ensures forall i, j :: 0 <= i < j < |Members(rows, h)| ==> Members(rows, h)[i] < Members(rows, h)[j]
    ensures forall k :: 0 <= k < |rows| ==>
      (k in Members(rows, h) <==> k == h || (k > h && SameCall(rows[h], rows[k])))
  {
    var n := |rows| - 1;
    if h < n {
      MembersAre(rows[..n], h);
    }
  }

  lemma {:induction false} SeqsAtPrefix(rows: seq<TimelineRow>, r: TimelineRow, ps: seq<nat>)
    requires Below(ps, |rows|)
    ensures SeqsAt(rows + [r], ps) == SeqsAt(rows, ps)
  {
    if ps != [] {
      SeqsAtPrefix(rows, r, ps[..|ps| - 1]);
    }
  }

  lemma SeqsAtSnoc(rows: seq<TimelineRow>, ps: seq<nat>, p: nat)
    requires Below(ps, |rows|) && p < |rows|
    ensures SeqsAt(rows, ps + [p]) == SeqsAt(rows, ps) + [rows[p].seq_]
  {
    assert (ps + [p])[..|ps|] == ps;
  }

  lemma MaxOfSnoc(ss: seq<nat>, x: nat)
    ensures MaxOf(ss + [x]) == Max(MaxOf(ss), x)
  {
    assert (ss + [x])[..|ss|] == ss;
  }

  lemma MembersSnoc(rows: seq<TimelineRow>, r: TimelineRow, h: nat)
    requires h < |rows|
    ensures Members(rows + [r], h) == Members(rows, h) + if SameCall(rows[h], r) then [|rows|] else []
  {
    assert (rows + [r])[..|rows|] == rows;
  }

  /** A later row of the same call extends an entry; any other row leaves it. */
  lemma EntryStep(rows: seq<TimelineRow>, r: TimelineRow, h: nat)
    requires h < |rows|
    ensures EntryAt(rows + [r], h) ==
            if SameCall(rows[h], r) then Touched(EntryAt(rows, h), r.seq_) else EntryAt(rows, h)
  {
    var ms := Members(rows, h);
    MembersSnoc(rows, r, h);
    SeqsAtPrefix(rows, r, ms);
    if SameCall(rows[h], r) {
      SeqsAtSnoc(rows + [r], ms, |rows|);
      MaxOfSnoc(SeqsAt(rows, ms), r.seq_);
    } else {
      assert ms + [] == ms;
    }
  }

  /** What the loop does to an entry when another row of its call arrives. */
  function Touched(e: ProjectionEntry, s: nat): ProjectionEntry {
    e.(seqEnd := Max(e.seqEnd, s),
       collapsed := if ToolLifecycle in e.collapsed then e.collapsed else e.collapsed + [ToolLifecycle],
       sourceSeqs := e.sourceSeqs + [s])
  }

  function Single(r: TimelineRow): ProjectionEntry {
    ProjectionEntry(r.seq_, r.seq_, r.item, [], [r.seq_])
  }

  lemma NewMembers(rows: seq<TimelineRow>, r: TimelineRow)
    ensures Members(rows + [r], |rows|) == [|rows|]
  {
  }

  lemma SeqsAtOne(rows: seq<TimelineRow>, p: nat)
    requires p < |rows|
    ensures SeqsAt(rows, [p]) == [rows[p].seq_]
  {
  }

  lemma MaxOfOne(x: nat)
    ensures MaxOf([x]) == x
  {
  }

  lemma NewEntry(rows: seq<TimelineRow>, r: TimelineRow)
    ensures EntryAt(rows + [r], |rows|) == Single(r)
  {
    NewMembers(rows, r);
    SeqsAtOne(rows + [r], |rows|);
    MaxOfOne(r.seq_);
  }

  lemma HeadsSnoc(rows: seq<TimelineRow>, r: TimelineRow)
    ensures Heads(rows + [r]) == if IsHead(rows + [r], |rows|) then Heads(rows) + [|rows|] else Heads(rows)
  {
    assert (rows + [r])[..|rows|] == rows;
  }

  lemma {:induction false} EntriesUntouched(rows: seq<TimelineRow>, r: TimelineRow, hs: seq<nat>)
    requires Below(hs, |rows|)
    requires forall i :: 0 <= i < |hs| ==> !SameCall(rows[hs[i]], r)
    ensures EntriesAt(rows + [r], hs) == EntriesAt(rows, hs)
  {
    if hs != [] {
      var n := |hs| - 1;
      EntriesUntouched(rows, r, hs[..n]);
      EntryStep(rows, r, hs[n]);
    }
  }

  lemma UpdateSnoc<T>(init: seq<T>, last: T, pos: nat, x: T)
    requires pos <= |init|
    ensures (init + [last])[pos := x] == if pos == |init| then init + [x] else init[pos := x] + [last]
  {
  }

  lemma {:induction false} EntriesTouched(rows: seq<TimelineRow>, r: TimelineRow, hs: seq<nat>, pos: nat, x: ProjectionEntry)
    requires Below(hs, |rows|) && pos < |hs|
    requires forall i :: 0 <= i < |hs| ==> (SameCall(rows[hs[i]], r) <==> i == pos)
    requires x == EntryAt(rows + [r], hs[pos])
    ensures EntriesAt(rows + [r], hs) == EntriesAt(rows, hs)[pos := x]
  {
    var n := |hs| - 1;
    UpdateSnoc(EntriesAt(rows, hs[..n]), EntryAt(rows, hs[n]), pos, x);
    if pos == n {
      EntriesUntouched(rows, r, hs[..n]);
    } else {
      EntryStep(rows, r, hs[n]);
      EntriesTouched(rows, r, hs[..n], pos, x);
    }
  }

  lemma EntriesSnoc(rows: seq<TimelineRow>, hs: seq<nat>, h: nat)
    requires Below(hs, |rows|) && h < |rows|
    ensures Below(hs + [h], |rows|) && EntriesAt(rows, hs + [h]) == EntriesAt(rows, hs) + [EntryAt(rows, h)]
  {
    assert (hs + [h])[..|hs|] == hs;
  }

  /** A row that opens an entry adds it at the end and changes no other. */
  lemma CollapseNew(rows: seq<TimelineRow>, r: TimelineRow)
    requires forall j :: 0 <= j < |rows| ==> !SameCall(rows[j], r)
    ensures Collapse(rows + [r]) == Collapse(rows) + [Single(r)]
    ensures Heads(rows + [r]) == Heads(rows) + [|rows|]
  {
    HeadsSnoc(rows, r);
    EntriesUntouched(rows, r, Heads(rows));
    EntriesSnoc(rows + [r], Heads(rows), |rows|);
    NewEntry(rows, r);
  }

  /** A row of a known call touches exactly the entry of that call's head. */
  lemma CollapseKnown(rows: seq<TimelineRow>, r: TimelineRow, pos: nat)
    requires pos < |Heads(rows)| && SameCall(rows[Heads(rows)[pos]], r)
    ensures Heads(rows + [r]) == Heads(rows)
    ensures Collapse(rows + [r]) == Collapse(rows)[pos := Touched(Collapse(rows)[pos], r.seq_)]
  {
    var hs := Heads(rows);
    KnownIsNoHead(rows, r, hs[pos]);
    HeadsSnoc(rows, r);
    forall i | 0 <= i < |hs| ensures SameCall(rows[hs[i]], r) <==> i == pos {
      if i != pos {
        HeadsDiffer(rows, i, pos);
      }
    }
    EntryStep(rows, r, hs[pos]);
    EntriesAtIs(rows, hs, pos);
    EntriesTouched(rows, r, hs, pos, Touched(EntryAt(rows, hs[pos]), r.seq_));
  }

  lemma KnownIsNoHead(rows: seq<TimelineRow>, r: TimelineRow, h: nat)
    requires h < |rows| && SameCall(rows[h], r)
    ensures !IsHead(rows + [r], |rows|)
  {
    assert SameCall((rows + [r])[h], (rows + [r])[|rows|]);
  }

  /** No two heads belong to the same call. */
  lemma HeadsDiffer(rows: seq<TimelineRow>, i: nat, j: nat)
    requires i < |Heads(rows)| && j < |Heads(rows)| && i != j
    ensures !SameCall(rows[Heads(rows)[i]], rows[Heads(rows)[j]])
  {
    HeadsIncrease(rows);
    assert Heads(rows)[i] in Heads(rows) && Heads(rows)[j] in Heads(rows);
    HeadsIff(rows, Heads(rows)[i]);
    HeadsIff(rows, Heads(rows)[j]);
  }

  // ---- The two passes ----------------------------------------------------

  ghost predicate IndexedTo(rows: seq<TimelineRow>, c: string, pos: nat) {
    && pos < |Heads(rows)|
    && rows[Heads(rows)[pos]].item.ToolCall? && rows[Heads(rows)[pos]].item.callId == c
  }

  /** Every known call id is indexed to the entry of its head, and no other id is. */
  ghost predicate Indexed(rows: seq<TimelineRow>, index: map<string, nat>) {
    && (forall k :: 0 <= k < |rows| && rows[k].item.ToolCall? ==> rows[k].item.callId in index)
    && (forall c :: c in index ==> IndexedTo(rows, c, index[c]))
  }

  lemma IndexedKnown(rows: seq<TimelineRow>, r: TimelineRow, index: map<string, nat>)
    requires Indexed(rows, index) && r.item.ToolCall? && r.item.callId in index
    requires Heads(rows + [r]) == Heads(rows)
    ensures Indexed(rows + [r], index)
  {
    forall c | c in index ensures IndexedTo(rows + [r], c, index[c]) {
      StillIndexed(rows, r, c, index[c]);
    }
  }

  lemma StillIndexed(rows: seq<TimelineRow>, r: TimelineRow, c: string, pos: nat)
    requires IndexedTo(rows, c, pos) && Heads(rows) <= Heads(rows + [r])
    ensures IndexedTo(rows + [r], c, pos)
  {
    assert Heads(rows + [r])[pos] == Heads(rows)[pos];
  }

  lemma IndexedNew(rows: seq<TimelineRow>, r: TimelineRow, index: map<string, nat>)
    requires Indexed(rows, index) && !(r.item.ToolCall? && r.item.callId in index)
    requires Heads(rows + [r]) == Heads(rows) + [|rows|]
    ensures Indexed(rows + [r], if r.item.ToolCall? then index[r.item.callId := |Heads(rows)|] else index)
  {
    forall c | c in index ensures IndexedTo(rows + [r], c, index[c]) {
      StillIndexed(rows, r, c, index[c]);
    }
  }

  /** The loop's state after the rows so far. */
  ghost predicate Grouped(rows: seq<TimelineRow>, out: seq<ProjectionEntry>, index: map<string, nat>) {
    out == Collapse(rows) && Indexed(rows, index)
  }

  lemma GroupedKnown(rows: seq<TimelineRow>, out: seq<ProjectionEntry>, index: map<string, nat>, r: TimelineRow, pos: nat)
    requires Grouped(rows, out, index) && r.item.ToolCall? && r.item.callId in index && pos == index[r.item.callId]
    ensures pos < |out| && Grouped(rows + [r], out[pos := Touched(out[pos], r.seq_)], index)
  {
    CollapseKnown(rows, r, pos);
    IndexedKnown(rows, r, index);
  }

  lemma GroupedNew(rows: seq<TimelineRow>, out: seq<ProjectionEntry>, index: map<string, nat>, r: TimelineRow)
    requires Grouped(rows, out, index) && !(r.item.ToolCall? && r.item.callId in index)
    ensures Grouped(rows + [r], out + [Single(r)], if r.item.ToolCall? then index[r.item.callId := |out|] else index)
  {
    NewCall(rows, index, r);
    CollapseNew(rows, r);
    IndexedNew(rows, r, index);
  }

  lemma NewCall(rows: seq<TimelineRow>, index: map<string, nat>, r: TimelineRow)
    requires Indexed(rows, index) && !(r.item.ToolCall? && r.item.callId in index)
    ensures forall j :: 0 <= j < |rows| ==> !SameCall(rows[j], r)
  {
  }

  /** The edit the loop makes to the entry of a known call. */
  method Touch(e: ProjectionEntry, s: nat) returns (t: ProjectionEntry)
    ensures t == Touched(e, s)
  {
    t := e.(seqEnd := Max(e.seqEnd, s));
    if ToolLifecycle !in t.collapsed {
      t := t.(collapsed := t.collapsed + [ToolLifecycle]);
    }
    t := t.(sourceSeqs := t.sourceSeqs + [s]);
  }

  /** The loop body: one row joins the entry of its call or opens a new one. */
  method GroupRow(ghost rows: seq<TimelineRow>, out: seq<ProjectionEntry>, index: map<string, nat>, row: TimelineRow)
    returns (out': seq<ProjectionEntry>, index': map<string, nat>)
    requires Grouped(rows, out, index)
    ensures Grouped(rows + [row], out', index')
  {
    out', index' := out, index;
    if row.item.ToolCall? && row.item.callId in index {
      var pos := index[row.item.callId];
      GroupedKnown(rows, out, index, row, pos);
      var e := Touch(out[pos], row.seq_);
      out' := out[pos := e];
    } else {
      GroupedNew(rows, out, index, row);
      if row.item.ToolCall? {
        index' := index[row.item.callId := |out|];
      }
      out' := out + [Single(row)];
    }
  }

  lemma PrefixSnoc<T>(s: seq<T>, k: nat)
    requires k < |s|
    ensures s[..k] + [s[k]] == s[..k + 1]
  {
  }

  method CollapseToolLifecycle(rows: seq<TimelineRow>) returns (out: seq<ProjectionEntry>)
    ensures out == Collapse(rows)
  {
    out := [];
    var index: map<string, nat> := map[];
    for k := 0 to |rows|
      invariant Grouped(rows[..k], out, index)
    {
      out, index := GroupRow(rows[..k], out, index, rows[k]);
      PrefixSnoc(rows, k);
    }
    assert rows[..|rows|] == rows;
  }

  // ---- Merging assistant runs --------------------------------------------

  /** b continues a: both assistant text, and b's numbers follow a's. */
  predicate Mergeable(a: ProjectionEntry, b: ProjectionEntry) {
    a.item.Assistant? && b.item.Assistant? && a.seqEnd + 1 == b.seqStart
  }

  /** a with b appended, as the loop edits its last output entry. */
  function Absorb(a: ProjectionEntry, b: ProjectionEntry): ProjectionEntry
    requires Mergeable(a, b)
  {
    ProjectionEntry(a.seqStart, b.seqEnd, Assistant(a.item.text + b.item.text),
                    if AssistantMerge in a.collapsed then a.collapsed else a.collapsed + [AssistantMerge],
                    a.sourceSeqs + b.sourceSeqs)
  }

  /** A stretch of neighbours each continuing the one before. */
  ghost predicate IsRun(es: seq<ProjectionEntry>) {
    es != [] && forall i :: 0 <= i < |es| - 1 ==> Mergeable(es[i], es[i + 1])
  }

  function Flatten<T>(ss: seq<seq<T>>): seq<T> {
    if ss == [] then [] else Flatten(ss[..|ss| - 1]) + ss[|ss| - 1]
  }

  /** A cut of es into runs, none of which could be continued into the next. */
  ghost predicate MaximalRuns(es: seq<ProjectionEntry>, runs: seq<seq<ProjectionEntry>>) {
    && Flatten(runs) == es
    && (forall i :: 0 <= i < |runs| ==> IsRun(runs[i]))
    && (forall i :: 0 <= i < |runs| - 1 ==> Apart(runs[i], runs[i + 1]))
  }

  ghost predicate Apart(r: seq<ProjectionEntry>, s: seq<ProjectionEntry>) {
    r != [] && s != [] && !Mergeable(r[|r| - 1], s[0])
  }

  function Texts(es: seq<ProjectionEntry>): string {
    if es == [] then ""
    else Texts(es[..|es| - 1]) + if es[|es| - 1].item.Assistant? then es[|es| - 1].item.text else ""
  }

  function Sources(es: seq<ProjectionEntry>): seq<nat> {
    if es == [] then [] else Sources(es[..|es| - 1]) + es[|es| - 1].sourceSeqs
  }

  /** One output entry for one run: outer numbers, joined text, joined sources. */
  function Combine(run: seq<ProjectionEntry>): ProjectionEntry
    requires run != []
  {
    if |run| == 1 then run[0]
    else ProjectionEntry(run[0].seqStart, run[|run| - 1].seqEnd, Assistant(Texts(run)),
                         if AssistantMerge in run[0].collapsed then run[0].collapsed else run[0].collapsed + [AssistantMerge],
                         Sources(run))
  }

  ghost predicate NonEmpty(runs: seq<seq<ProjectionEntry>>) {
    forall i :: 0 <= i < |runs| ==> runs[i] != []
  }

  function CombineAll(runs: seq<seq<ProjectionEntry>>): (es: seq<ProjectionEntry>)
    requires NonEmpty(runs)
    ensures |es| == |runs| && forall i :: 0 <= i < |runs| ==> es[i] == Combine(runs[i])
  {
    if runs == [] then []
    else CombineAll(runs[..|runs| - 1]) + [Combine(runs[|runs| - 1])]
  }

  /** The runs, built by one look at each entry. */
  function Runs(es: seq<ProjectionEntry>): (runs: seq<seq<ProjectionEntry>>)
    ensures NonEmpty(runs) && (es != [] ==> runs != [])
  {
    if es == [] then []
    else
      var n := |es| - 1;
      var before := Runs(es[..n]);
      if n > 0 && Mergeable(es[n - 1], es[n]) then before[..|before| - 1] + [before[|before| - 1] + [es[n]]]
      else before + [[es[n]]]
  }

  function Merge(es: seq<ProjectionEntry>): seq<ProjectionEntry> {
    CombineAll(Runs(es))
  }

  lemma FlattenSnoc<T>(ss: seq<seq<T>>, s: seq<T>)
    ensures Flatten(ss + [s]) == Flatten(ss) + s
  {
    assert (ss + [s])[..|ss|] == ss;
  }

  lemma RunGrows(run: seq<ProjectionEntry>, e: ProjectionEntry)
    requires IsRun(run) && Mergeable(run[|run| - 1], e)
    ensures IsRun(run + [e])
  {
    var r := run + [e];
    forall i | 0 <= i < |r| - 1 ensures Mergeable(r[i], r[i + 1]) {
      if i < |run| - 1 { assert Mergeable(run[i], run[i + 1]); }
    }
  }

  lemma RunsSnoc(es: seq<ProjectionEntry>, e: ProjectionEntry)
    ensures var before, m := Runs(es), |Runs(es)| - 1;
            Runs(es + [e]) ==
            if es != [] && Mergeable(es[|es| - 1], e) then before[..m] + [before[m] + [e]] else before + [[e]]
  {
    assert (es + [e])[..|es|] == es;
  }

  ghost predicate EndsLike(runs: seq<seq<ProjectionEntry>>, es: seq<ProjectionEntry>) {
    if es == [] then runs == []
    else runs != [] && var last := runs[|runs| - 1]; last != [] && last[|last| - 1] == es[|es| - 1]
  }

  /** Runs cuts es into maximal runs, the last of them ending where es does. */
  lemma {:induction false} RunsAreMaximal(es: seq<ProjectionEntry>)
    ensures MaximalRuns(es, Runs(es)) && EndsLike(Runs(es), es)
  {
    if es != [] {
      var init, e := es[..|es| - 1], es[|es| - 1];
      assert es == init + [e];
      RunsAreMaximal(init);
      RunsSnoc(init, e);
      var before := Runs(init);
      if init != [] && Mergeable(init[|init| - 1], e) {
        var m := |before| - 1;
        assert before == before[..m] + [before[m]];
        ContinueRun(before[..m], before[m], e, init);
      } else {
        FlattenSnoc(before, [e]);
        MaximalPush(before, e);
      }
    }
  }

  lemma ContinueRun(front: seq<seq<ProjectionEntry>>, run: seq<ProjectionEntry>, e: ProjectionEntry, es: seq<ProjectionEntry>)
    requires MaximalRuns(es, front + [run]) && run != [] && Mergeable(run[|run| - 1], e)
    ensures MaximalRuns(es + [e], front + [run + [e]])
  {
    assert IsRun((front + [run])[|front|]);
    RunGrows(run, e);
    FlattenSnoc(front, run);
    FlattenSnoc(front, run + [e]);
    assert Flatten(front) + (run + [e]) == Flatten(front) + run + [e];
    MaximalSwap(front, run, e);
  }

  ghost predicate RunsApart(runs: seq<seq<ProjectionEntry>>) {
    (forall i :: 0 <= i < |runs| ==> IsRun(runs[i])) && forall i :: 0 <= i < |runs| - 1 ==> Apart(runs[i], runs[i + 1])
  }

  lemma MaximalSwap(front: seq<seq<ProjectionEntry>>, run: seq<ProjectionEntry>, e: ProjectionEntry)
    requires RunsApart(front + [run]) && IsRun(run + [e]) && run != []
    ensures RunsApart(front + [run + [e]])
  {
    var old_, new_ := front + [run], front + [run + [e]];
    forall i | 0 <= i < |new_| ensures IsRun(new_[i]) {
      if i < |front| { assert IsRun(old_[i]); }
    }
    forall i | 0 <= i < |new_| - 1 ensures Apart(new_[i], new_[i + 1]) {
      assert Apart(old_[i], old_[i + 1]);
    }
  }

  lemma MaximalPush(before: seq<seq<ProjectionEntry>>, e: ProjectionEntry)
    requires RunsApart(before)
    requires before != [] ==> Apart(before[|before| - 1], [e])
    ensures RunsApart(before + [[e]])
  {
    var new_ := before + [[e]];
    forall i | 0 <= i < |new_| - 1 ensures Apart(new_[i], new_[i + 1]) {
      if i < |before| - 1 { assert Apart(before[i], before[i + 1]); }
    }
  }

  /** Where the last run begins, the entry before does not continue into it. */
  lemma LastBoundary(es: seq<ProjectionEntry>, A: seq<seq<ProjectionEntry>>)
    requires MaximalRuns(es, A) && A != [] && |A[|A| - 1]| < |es|
    ensures var k := |es| - |A[|A| - 1]|; !Mergeable(es[k - 1], es[k])
  {
    var front, a := A[..|A| - 1], A[|A| - 1];
    assert Flatten(front) + a == es;
    FlattenLast(front, A);
    assert Apart(A[|A| - 2], A[|A| - 2 + 1]);
  }

  /** Inside the last run every entry continues the one before. */
  lemma InsideLast(es: seq<ProjectionEntry>, B: seq<seq<ProjectionEntry>>, k: nat)
    requires MaximalRuns(es, B) && B != [] && 1 <= k < |B[|B| - 1]|
    ensures |B[|B| - 1]| <= |es|
    ensures var o := |es| - |B[|B| - 1]|; Mergeable(es[o + k - 1], es[o + k])
  {
    var b := B[|B| - 1];
    assert Flatten(B[..|B| - 1]) + b == es;
    assert IsRun(b);
    assert Mergeable(b[k - 1], b[k - 1 + 1]);
  }

  /** So of two such cuts neither has a shorter last run. */
  lemma LastRunNoShorter(es: seq<ProjectionEntry>, A: seq<seq<ProjectionEntry>>, B: seq<seq<ProjectionEntry>>)
    requires MaximalRuns(es, A) && MaximalRuns(es, B) && A != [] && B != []
    ensures |A[|A| - 1]| >= |B[|B| - 1]|
  {
    var a, b := A[|A| - 1], B[|B| - 1];
    assert IsRun(a);
    if |a| < |b| {
      InsideLast(es, B, |b| - |a|);
      LastBoundary(es, A);
    }
  }

  /** The last entry of the front is the last entry of its last run. */
  lemma FlattenLast(front: seq<seq<ProjectionEntry>>, A: seq<seq<ProjectionEntry>>)
    requires |A| >= 1 && front == A[..|A| - 1] && Flatten(front) != []
    requires forall i :: 0 <= i < |A| ==> IsRun(A[i])
    ensures |A| >= 2
    ensures var r := A[|A| - 2]; r != [] && Flatten(front)[|Flatten(front)| - 1] == r[|r| - 1]
  {
    if front != [] {
      assert IsRun(A[|A| - 2]);
      assert front[|front| - 1] == A[|A| - 2];
    }
  }

  /** There is only one way to cut entries into maximal runs. */
  lemma {:induction false} MaximalRunsUnique(es: seq<ProjectionEntry>, A: seq<seq<ProjectionEntry>>, B: seq<seq<ProjectionEntry>>)
    requires MaximalRuns(es, A) && MaximalRuns(es, B)
    ensures A == B
    decreases |es|
  {
    if A == [] || B == [] {
      FlattenEmpty(A);
      FlattenEmpty(B);
    } else {
      LastRunNoShorter(es, A, B);
      LastRunNoShorter(es, B, A);
      var a, b := A[|A| - 1], B[|B| - 1];
      var front, back := A[..|A| - 1], B[..|B| - 1];
      assert Flatten(front) + a == es == Flatten(back) + b;
      assert a == es[|es| - |a|..] == b;
      assert Flatten(front) == es[..|es| - |a|] == Flatten(back);
      assert IsRun(a);
      InitMaximal(es, A);
      InitMaximal(es, B);
      MaximalRunsUnique(Flatten(front), front, back);
      assert A == front + [a] && B == back + [b];
    }
  }

  lemma FlattenEmpty(runs: seq<seq<ProjectionEntry>>)
    requires forall i :: 0 <= i < |runs| ==> IsRun(runs[i])
    ensures Flatten(runs) == [] <==> runs == []
  {
    if runs != [] {
      assert IsRun(runs[|runs| - 1]);
    }
  }

  lemma InitMaximal(es: seq<ProjectionEntry>, A: seq<seq<ProjectionEntry>>)
    requires MaximalRuns(es, A) && A != []
    ensures MaximalRuns(Flatten(A[..|A| - 1]), A[..|A| - 1])
  {
    var front := A[..|A| - 1];
    forall i | 0 <= i < |front| ensures IsRun(front[i]) {
      assert IsRun(A[i]);
    }
    forall i | 0 <= i < |front| - 1 ensures Apart(front[i], front[i + 1]) {
      assert Apart(A[i], A[i + 1]);
    }
  }

  // ---- The merge loop ----------------------------------------------------

  lemma TextsSnoc(es: seq<ProjectionEntry>, e: ProjectionEntry)
    ensures Texts(es + [e]) == Texts(es) + if e.item.Assistant? then e.item.text else ""
    ensures Sources(es + [e]) == Sources(es) + e.sourceSeqs
  {
    assert (es + [e])[..|es|] == es;
  }

  lemma TextsOne(e: ProjectionEntry)
    ensures Texts([e]) == if e.item.Assistant? then e.item.text else ""
    ensures Sources([e]) == e.sourceSeqs
  {
    TextsSnoc([], e);
    assert [] + [e] == [e];
  }

  /** A run's entry keeps the run's ends, kind, texts and sources. */
  lemma {:induction false} CombineKeeps(run: seq<ProjectionEntry>)
    requires IsRun(run)
    ensures var c, first, last := Combine(run), run[0], run[|run| - 1];
            && c.seqStart == first.seqStart && c.seqEnd == last.seqEnd
            && (c.item.Assistant? <==> first.item.Assistant?) && (c.item.Assistant? <==> last.item.Assistant?)
            && c.sourceSeqs == Sources(run)
            && Texts(run) == if c.item.Assistant? then c.item.text else ""
  {
    if |run| == 1 {
      TextsOne(run[0]);
      assert run == [run[0]];
    } else {
      assert Mergeable(run[0], run[0 + 1]);
      assert Mergeable(run[|run| - 2], run[|run| - 2 + 1]);
    }
  }

  /** Absorbing the next entry is combining the longer run. */
  lemma CombineSnoc(run: seq<ProjectionEntry>, e: ProjectionEntry)
    requires IsRun(run) && Mergeable(run[|run| - 1], e)
    ensures Mergeable(Combine(run), e) && Combine(run + [e]) == Absorb(Combine(run), e)
  {
    CombineKeeps(run);
    TextsSnoc(run, e);
  }

  lemma CombineAllSnoc(runs: seq<seq<ProjectionEntry>>, r: seq<ProjectionEntry>)
    requires NonEmpty(runs) && r != []
    ensures NonEmpty(runs + [r]) && CombineAll(runs + [r]) == CombineAll(runs) + [Combine(r)]
  {
    assert (runs + [r])[..|runs|] == runs;
  }

  /** The last output entry is as mergeable with the next as the last input was. */
  lemma LastOut(es: seq<ProjectionEntry>, e: ProjectionEntry)
    ensures es == [] <==> Merge(es) == []
    ensures es != [] ==> (Mergeable(es[|es| - 1], e) <==> Mergeable(Merge(es)[|Merge(es)| - 1], e))
  {
    if es != [] {
      RunsAreMaximal(es);
      var run := Runs(es)[|Runs(es)| - 1];
      assert IsRun(run);
      CombineKeeps(run);
    }
  }

  lemma MergeAbsorbs(es: seq<ProjectionEntry>, e: ProjectionEntry)
    requires es != [] && Mergeable(es[|es| - 1], e)
    ensures Merge(es) != [] && Mergeable(Merge(es)[|Merge(es)| - 1], e)
    ensures var out, m := Merge(es), |Merge(es)| - 1;
            Merge(es + [e]) == out[..m] + [Absorb(out[m], e)]
  {
    LastOut(es, e);
    RunsAreMaximal(es);
    RunsSnoc(es, e);
    var before := Runs(es);
    var m := |before| - 1;
    var front, run := before[..m], before[m];
    assert IsRun(run) && before == front + [run];
    CombineAllSnoc(front, run);
    CombineSnoc(run, e);
    CombineAllSnoc(front, run + [e]);
  }

  lemma MergeAppends(es: seq<ProjectionEntry>, e: ProjectionEntry)
    requires es == [] || !Mergeable(es[|es| - 1], e)
    ensures Merge(es + [e]) == Merge(es) + [e]
  {
    RunsSnoc(es, e);
    CombineAllSnoc(Runs(es), [e]);
  }

  /** One more entry: absorbed by the last output entry exactly when that is a
      contiguous assistant entry, appended otherwise. */
  lemma MergeSnoc(es: seq<ProjectionEntry>, e: ProjectionEntry)
    ensures es == [] <==> Merge(es) == []
    ensures var out, m := Merge(es), |Merge(es)| - 1;
            Merge(es + [e]) == if es != [] && Mergeable(out[m], e) then out[..m] + [Absorb(out[m], e)] else out + [e]
  {
    LastOut(es, e);
    if es != [] && Mergeable(es[|es| - 1], e) {
      MergeAbsorbs(es, e);
    } else {
      MergeAppends(es, e);
    }
  }

  method MergeAssistantChunks(entries: seq<ProjectionEntry>) returns (out: seq<ProjectionEntry>)
    ensures out == Merge(entries)
  {
    if entries == [] {
      return entries;
    }
    out := [];
    for k := 0 to |entries|
      invariant out == Merge(entries[..k])
    {
      var e := entries[k];
      assert entries[..k + 1] == entries[..k] + [e];
      MergeSnoc(entries[..k], e);
      var m := |out| - 1;
      if out != [] && out[m].item.Assistant? && e.item.Assistant? && out[m].seqEnd + 1 == e.seqStart {
        var last := out[m];
        last := last.(item := Assistant(last.item.text + e.item.text));
        last := last.(seqEnd := e.seqEnd);
        if AssistantMerge !in last.collapsed {
          last := last.(collapsed := last.collapsed + [AssistantMerge]);
        }
        last := last.(sourceSeqs := last.sourceSeqs + e.sourceSeqs);
        out := out[..m] + [last];
      } else {
        out := out + [e];
      }
    }
    assert entries[..|entries|] == entries;
  }

  function Projection(rows: seq<TimelineRow>): seq<ProjectionEntry> {
    Merge(Collapse(rows))
  }

  method Project(rows: seq<TimelineRow>) returns (out: seq<ProjectionEntry>)
    ensures out == Projection(rows)
  {
    var step1 := CollapseToolLifecycle(rows);
    out := MergeAssistantChunks(step1);
  }

  // ---- What merging keeps, and when it is done ---------------------------

  ghost predicate NothingMergeable(es: seq<ProjectionEntry>) {
    forall i :: 0 <= i < |es| - 1 ==> !Mergeable(es[i], es[i + 1])
  }

  /** After the merge no two neighbours can be merged any more. */
  lemma MergeLeavesNothing(es: seq<ProjectionEntry>)
    ensures NothingMergeable(Merge(es))
  {
    RunsAreMaximal(es);
    var runs := Runs(es);
    forall i | 0 <= i < |runs| - 1 ensures !Mergeable(Merge(es)[i], Merge(es)[i + 1]) {
      assert Apart(runs[i], runs[i + 1]) && IsRun(runs[i]) && IsRun(runs[i + 1]);
      CombineKeeps(runs[i]);
      CombineKeeps(runs[i + 1]);
    }
  }

  lemma {:induction false} MergeOfMerged(es: seq<ProjectionEntry>)
    requires NothingMergeable(es)
    ensures Merge(es) == es
  {
    if es != [] {
      var n := |es| - 1;
      assert NothingMergeable(es[..n]);
      MergeOfMerged(es[..n]);
      assert n > 0 ==> !Mergeable(es[n - 1], es[n - 1 + 1]);
      MergeAppends(es[..n], es[n]);
      assert es == es[..n] + [es[n]];
    }
  }

  /** Merging again changes nothing: the merge leaves a list alone exactly when
      nothing in it can be merged, and always reaches such a list. */
  lemma MergeIdempotent(es: seq<ProjectionEntry>)
    ensures Merge(Merge(es)) == Merge(es)
    ensures Merge(es) == es <==> NothingMergeable(es)
  {
    MergeLeavesNothing(es);
    MergeOfMerged(Merge(es));
    if NothingMergeable(es) {
      MergeOfMerged(es);
    }
  }

  function OtherEntries(es: seq<ProjectionEntry>): seq<ProjectionEntry> {
    if es == [] then []
    else OtherEntries(es[..|es| - 1]) + if es[|es| - 1].item.Assistant? then [] else [es[|es| - 1]]
  }

  lemma OthersSnoc(es: seq<ProjectionEntry>, e: ProjectionEntry)
    ensures OtherEntries(es + [e]) == OtherEntries(es) + if e.item.Assistant? then [] else [e]
  {
    assert (es + [e])[..|es|] == es;
  }

  /** Merging keeps the text, the source numbers and every other entry, in order. */
  lemma {:induction false} MergeConserves(es: seq<ProjectionEntry>)
    ensures Texts(Merge(es)) == Texts(es)
    ensures Sources(Merge(es)) == Sources(es)
    ensures OtherEntries(Merge(es)) == OtherEntries(es)
  {
    if es != [] {
      var n, e := |es| - 1, es[|es| - 1];
      var init, out := es[..n], Merge(es[..n]);
      assert es == init + [e];
      MergeConserves(init);
      MergeSnoc(init, e);
      if init != [] && Mergeable(out[|out| - 1], e) {
        AbsorbConserves(out[..|out| - 1], out[|out| - 1], e);
        assert out == out[..|out| - 1] + [out[|out| - 1]];
      } else {
        TextsSnoc(out, e);
        OthersSnoc(out, e);
      }
      TextsSnoc(init, e);
      OthersSnoc(init, e);
    }
  }

  lemma Assoc<T>(a: seq<T>, b: seq<T>, c: seq<T>)
    ensures a + (b + c) == a + b + c
  {
  }

  lemma AbsorbConserves(front: seq<ProjectionEntry>, last: ProjectionEntry, e: ProjectionEntry)
    requires Mergeable(last, e)
    ensures var before, after := front + [last], front + [Absorb(last, e)];
            && Texts(after) == Texts(before) + e.item.text
            && Sources(after) == Sources(before) + e.sourceSeqs
            && OtherEntries(after) == OtherEntries(before)
  {
    TextsSnoc(front, last);
    TextsSnoc(front, Absorb(last, e));
    OthersSnoc(front, last);
    OthersSnoc(front, Absorb(last, e));
    Assoc(Texts(front), last.item.text, e.item.text);
    Assoc(Sources(front), last.sourceSeqs, e.sourceSeqs);
  }

  // ---- Conservation through both passes ----------------------------------

  function RowSeqs(rows: seq<TimelineRow>): seq<nat> {
    if rows == [] then [] else RowSeqs(rows[..|rows| - 1]) + [rows[|rows| - 1].seq_]
  }

  function RowTexts(rows: seq<TimelineRow>): string {
    if rows == [] then ""
    else RowTexts(rows[..|rows| - 1]) + if rows[|rows| - 1].item.Assistant? then rows[|rows| - 1].item.text else ""
  }

  /** Touching one entry adds one source number and no text. */
  lemma {:induction false} TouchConserves(es: seq<ProjectionEntry>, pos: nat, s: nat)
    requires pos < |es|
    ensures var after := es[pos := Touched(es[pos], s)];
            && Texts(after) == Texts(es)
            && multiset(Sources(after)) == multiset(Sources(es)) + multiset{s}
  {
    var n := |es| - 1;
    var init, last := es[..n], es[n];
    assert es == init + [last];
    TextsSnoc(init, last);
    if pos == n {
      UpdateSnoc(init, last, n, Touched(last, s));
      TextsSnoc(init, Touched(last, s));
    } else {
      TouchConserves(init, pos, s);
      UpdateSnoc(init, last, pos, Touched(es[pos], s));
      TextsSnoc(init[pos := Touched(es[pos], s)], last);
    }
  }

  lemma RowsSnoc(rows: seq<TimelineRow>, r: TimelineRow)
    ensures RowSeqs(rows + [r]) == RowSeqs(rows) + [r.seq_]
    ensures RowTexts(rows + [r]) == RowTexts(rows) + if r.item.Assistant? then r.item.text else ""
  {
    assert (rows + [r])[..|rows|] == rows;
  }

  /** es has the text and, up to order, the numbers of rows. */
  ghost predicate Conserves(rows: seq<TimelineRow>, es: seq<ProjectionEntry>) {
    Texts(es) == RowTexts(rows) && multiset(Sources(es)) == multiset(RowSeqs(rows))
  }

  lemma TouchKeepsConserving(rows: seq<TimelineRow>, es: seq<ProjectionEntry>, r: TimelineRow, pos: nat)
    requires Conserves(rows, es) && pos < |es| && !r.item.Assistant?
    ensures Conserves(rows + [r], es[pos := Touched(es[pos], r.seq_)])
  {
    RowsSnoc(rows, r);
    TouchConserves(es, pos, r.seq_);
  }

  lemma PushKeepsConserving(rows: seq<TimelineRow>, es: seq<ProjectionEntry>, r: TimelineRow)
    requires Conserves(rows, es)
    ensures Conserves(rows + [r], es + [Single(r)])
  {
    RowsSnoc(rows, r);
    TextsSnoc(es, Single(r));
  }

  lemma {:induction false} CollapseConserves(rows: seq<TimelineRow>)
    ensures Conserves(rows, Collapse(rows))
  {
    if rows != [] {
      var init, r := rows[..|rows| - 1], rows[|rows| - 1];
      var es := Collapse(init);
      assert rows == init + [r];
      CollapseConserves(init);
      if j :| 0 <= j < |init| && SameCall(init[j], r) {
        var pos := KnownHead(init, r, j);
        CollapseKnown(init, r, pos);
        TouchKeepsConserving(init, es, r, pos);
      } else {
        CollapseNew(init, r);
        PushKeepsConserving(init, es, r);
      }
    }
  }

  /** The entry a row of a known call belongs to. */
  lemma KnownHead(rows: seq<TimelineRow>, r: TimelineRow, j: nat) returns (pos: nat)
    requires j < |rows| && SameCall(rows[j], r)
    ensures pos < |Heads(rows)| && SameCall(rows[Heads(rows)[pos]], r)
  {
    var h := FirstOfCall(rows, r, j);
    HeadsIff(rows, h);
    pos :| 0 <= pos < |Heads(rows)| && Heads(rows)[pos] == h;
  }

  lemma {:induction false} FirstOfCall(rows: seq<TimelineRow>, r: TimelineRow, j: nat) returns (h: nat)
    requires j < |rows| && SameCall(rows[j], r)
    ensures h < |rows| && SameCall(rows[h], r) && IsHead(rows, h)
  {
    if i :| 0 <= i < j && SameCall(rows[i], rows[j]) {
      h := FirstOfCall(rows, r, i);
    } else {
      h := j;
    }
  }

  /** The projection loses and invents nothing: its source numbers are those of the
      rows with their multiplicities, and all assistant text is there in order. */
  lemma ProjectionConserves(rows: seq<TimelineRow>)
    ensures Conserves(rows, Projection(rows))
    ensures OtherEntries(Projection(rows)) == OtherEntries(Collapse(rows))
    ensures var es := Projection(rows);
            forall i :: 0 <= i < |es| - 1 && es[i].item.Assistant? && es[i + 1].item.Assistant? ==> es[i].seqEnd + 1 != es[i + 1].seqStart
  {
    CollapseConserves(rows);
    MergeConserves(Collapse(rows));
    MergeLeavesNothing(Collapse(rows));
    var es := Projection(rows);
    forall i | 0 <= i < |es| - 1 && es[i].item.Assistant? && es[i + 1].item.Assistant?
      ensures es[i].seqEnd + 1 != es[i + 1].seqStart
    {
      assert !Mergeable(es[i], es[i + 1]);
    }
  }

  // ---- What a collapsed entry stands for ---------------------------------

  /** The rows that open entries are those no earlier row shares its tool call with. */
  lemma OpensEntryIff(rows: seq<TimelineRow>, h: nat)
    ensures h in Heads(rows) <==>
            && h < |rows|
            && forall j :: 0 <= j < h ==>
                 !(rows[j].item.ToolCall? && rows[h].item.ToolCall? && rows[j].item.callId == rows[h].item.callId)
  {
    if h < |rows| {
      HeadsIff(rows, h);
      forall j | 0 <= j < h
        ensures SameCall(rows[j], rows[h]) <==>
                rows[j].item.ToolCall? && rows[h].item.ToolCall? && rows[j].item.callId == rows[h].item.callId
      {
      }
    }
  }

  lemma {:induction false} SeqsAtIs(rows: seq<TimelineRow>, ps: seq<nat>, i: nat)
    requires Below(ps, |rows|) && i < |ps|
    ensures SeqsAt(rows, ps)[i] == rows[ps[i]].seq_
  {
    var n := |ps| - 1;
    if i < n {
      SeqsAtIs(rows, ps[..n], i);
    }
  }

  lemma {:induction false} MaxOfBounds(ss: seq<nat>, i: nat)
    requires i < |ss|
    ensures ss[i] <= MaxOf(ss)
  {
    var n := |ss| - 1;
    if i < n {
      MaxOfBounds(ss[..n], i);
    }
  }

  lemma {:induction false} MaxOfTaken(ss: seq<nat>) returns (i: nat)
    requires ss != []
    ensures i < |ss| && ss[i] == MaxOf(ss)
  {
    i := |ss| - 1;
    if ss[..i] != [] && MaxOf(ss) != ss[i] {
      i := MaxOfTaken(ss[..i]);
    }
  }

  /** The numbers of an entry are those of the rows ms, the first and the largest of
      them are its ends, and it is marked exactly when there is more than one. */
  ghost predicate StandsFor(rows: seq<TimelineRow>, ms: seq<nat>, e: ProjectionEntry) {
    && ms != [] && Below(ms, |rows|) && |e.sourceSeqs| == |ms|
    && (forall i :: 0 <= i < |ms| ==> e.sourceSeqs[i] == rows[ms[i]].seq_)
    && e.item == rows[ms[0]].item && e.seqStart == rows[ms[0]].seq_
    && e.seqEnd in e.sourceSeqs && (forall i :: 0 <= i < |ms| ==> e.sourceSeqs[i] <= e.seqEnd)
    && e.collapsed == if |ms| > 1 then [ToolLifecycle] else []
  }

  /** The head and the later rows of its tool call, in row order. */
  ghost predicate CallRows(rows: seq<TimelineRow>, h: nat, ms: seq<nat>)
    requires h < |rows|
  {
    && (forall i, j :: 0 <= i < j < |ms| ==> ms[i] < ms[j])
    && forall k :: 0 <= k < |rows| ==>
         (k in ms <==>
          k == h || (k > h && rows[h].item.ToolCall? && rows[k].item.ToolCall? && rows[k].item.callId == rows[h].item.callId))
  }

  /** Entry k of the collapse stands for the rows of the k-th opening row. */
  lemma CollapsedEntry(rows: seq<TimelineRow>, k: nat) returns (h: nat, ms: seq<nat>)
    requires k < |Collapse(rows)|
    ensures h == Heads(rows)[k] && h < |rows| && ms != [] && ms[0] == h
    ensures CallRows(rows, h, ms) && StandsFor(rows, ms, Collapse(rows)[k])
  {
    h, ms := Heads(rows)[k], Members(rows, Heads(rows)[k]);
    EntriesAtIs(rows, Heads(rows), k);
    MembersAre(rows, h);
    forall i | 0 <= i < |ms| ensures SeqsAt(rows, ms)[i] == rows[ms[i]].seq_ {
      SeqsAtIs(rows, ms, i);
    }
    var last := MaxOfTaken(SeqsAt(rows, ms));
    forall i | 0 <= i < |ms| ensures SeqsAt(rows, ms)[i] <= MaxOf(SeqsAt(rows, ms)) {
      MaxOfBounds(SeqsAt(rows, ms), i);
    }
    forall j | 0 <= j < |rows|
      ensures SameCall(rows[h], rows[j]) <==>
              rows[h].item.ToolCall? && rows[j].item.ToolCall? && rows[j].item.callId == rows[h].item.callId
    {
    }
  }

  /** The merge touches no tool or system entry: each is one of the collapse. */
  lemma ProjectedOther(rows: seq<TimelineRow>, i: nat) returns (k: nat)
    requires i < |Projection(rows)| && !Projection(rows)[i].item.Assistant?
    ensures k < |Collapse(rows)| && Collapse(rows)[k] == Projection(rows)[i]
  {
    var es, runs := Collapse(rows), Runs(Collapse(rows));
    RunsAreMaximal(es);
    var run := runs[i];
    assert IsRun(run);
    k := RunOffset(runs, i);
    assert es[k..k + |run|] == run;
    assert es[k] == run[0];
  }

  /** So a tool or system entry of the projection stands for the rows of one call, or
      for one row. */
  lemma ToolEntry(rows: seq<TimelineRow>, i: nat) returns (h: nat, ms: seq<nat>)
    requires i < |Projection(rows)| && !Projection(rows)[i].item.Assistant?
    ensures h in Heads(rows) && h < |rows| && ms != [] && ms[0] == h
    ensures CallRows(rows, h, ms) && StandsFor(rows, ms, Projection(rows)[i])
  {
    var k := ProjectedOther(rows, i);
    h, ms := CollapsedEntry(rows, k);
  }

  // ---- What an assistant entry stands for --------------------------------

  /** Where run i of a cut lies in the list that was cut. */
  lemma {:induction false} RunOffset(runs: seq<seq<ProjectionEntry>>, i: nat) returns (o: nat)
    requires i < |runs|
    ensures o + |runs[i]| <= |Flatten(runs)| && Flatten(runs)[o..o + |runs[i]|] == runs[i]
  {
    var n := |runs| - 1;
    if i == n {
      o := |Flatten(runs[..n])|;
    } else {
      o := RunOffset(runs[..n], i);
      assert Flatten(runs)[o..o + |runs[i]|] == Flatten(runs[..n])[o..o + |runs[i]|];
    }
  }

  lemma SingleMember(rows: seq<TimelineRow>, h: nat)
    requires h < |rows| && !rows[h].item.ToolCall?
    ensures EntryAt(rows, h) == Single(rows[h])
    decreases |rows|
  {
    var n := |rows| - 1;
    assert rows == rows[..n] + [rows[n]];
    if h == n {
      NewEntry(rows[..n], rows[n]);
    } else {
      EntryStep(rows[..n], rows[n], h);
      SingleMember(rows[..n], h);
    }
  }

  function NumbersFrom(start: nat, count: nat): (ns: seq<nat>)
    ensures |ns| == count && forall k :: 0 <= k < count ==> ns[k] == start + k
  {
    if count == 0 then [] else NumbersFrom(start, count - 1) + [start + count - 1]
  }

  function TextsAt(rows: seq<TimelineRow>, ps: seq<nat>): string
    requires Below(ps, |rows|)
  {
    if ps == [] then ""
    else
      var item := rows[ps[|ps| - 1]].item;
      TextsAt(rows, ps[..|ps| - 1]) + if item.Assistant? then item.text else ""
  }

  /** The rows at ps are assistant chunks numbered start, start + 1, and so on. */
  ghost predicate ChunksFrom(rows: seq<TimelineRow>, ps: seq<nat>, start: nat) {
    && Below(ps, |rows|)
    && (forall i, j :: 0 <= i < j < |ps| ==> ps[i] < ps[j])
    && forall k :: 0 <= k < |ps| ==> rows[ps[k]].item.Assistant? && rows[ps[k]].seq_ == start + k
  }

  lemma {:induction false} RunOfChunks(rows: seq<TimelineRow>, ps: seq<nat>, run: seq<ProjectionEntry>)
    requires Below(ps, |rows|) && |run| == |ps| && IsRun(run)
    requires forall i, j :: 0 <= i < j < |ps| ==> ps[i] < ps[j]
    requires forall k :: 0 <= k < |ps| ==> rows[ps[k]].item.Assistant? && run[k] == Single(rows[ps[k]])
    ensures ChunksFrom(rows, ps, run[0].seqStart)
    ensures Texts(run) == TextsAt(rows, ps)
    ensures Sources(run) == NumbersFrom(run[0].seqStart, |ps|)
  {
    var n := |run| - 1;
    assert run == run[..n] + [run[n]];
    TextsSnoc(run[..n], run[n]);
    if n > 0 {
      forall i | 0 <= i < n - 1 ensures Mergeable(run[..n][i], run[..n][i + 1]) {
        assert Mergeable(run[i], run[i + 1]);
      }
      RunOfChunks(rows, ps[..n], run[..n]);
      assert Mergeable(run[n - 1], run[n - 1 + 1]);
      assert rows[ps[..n][n - 1]].seq_ == run[0].seqStart + (n - 1);
    }
  }

  lemma AssistantAt(rows: seq<TimelineRow>, k: nat)
    requires k < |Collapse(rows)| && Collapse(rows)[k].item.Assistant?
    ensures var h := Heads(rows)[k]; rows[h].item.Assistant? && Collapse(rows)[k] == Single(rows[h])
  {
    EntriesAtIs(rows, Heads(rows), k);
    SingleMember(rows, Heads(rows)[k]);
  }

  /** Positions and entries side by side: a slice of one is a slice of the other. */
  lemma SliceRows(rows: seq<TimelineRow>, hs: seq<nat>, es: seq<ProjectionEntry>, run: seq<ProjectionEntry>, o: nat) returns (ps: seq<nat>)
    requires Below(hs, |rows|) && |hs| == |es| && o + |run| <= |es| && es[o..o + |run|] == run
    requires forall i, j :: 0 <= i < j < |hs| ==> hs[i] < hs[j]
    requires forall k :: 0 <= k < |es| && es[k].item.Assistant? ==>
      rows[hs[k]].item.Assistant? && es[k] == Single(rows[hs[k]])
    requires forall k :: 0 <= k < |run| ==> run[k].item.Assistant?
    ensures Below(ps, |rows|) && |ps| == |run|
    ensures forall k, j :: 0 <= k < j < |ps| ==> ps[k] < ps[j]
    ensures forall k :: 0 <= k < |ps| ==> rows[ps[k]].item.Assistant? && run[k] == Single(rows[ps[k]])
  {
    ps := hs[o..o + |run|];
    forall k | 0 <= k < |ps| ensures rows[ps[k]].item.Assistant? && run[k] == Single(rows[ps[k]]) {
      assert run[k] == es[o + k];
    }
  }

  /** The rows behind run i of the collapsed entries, when it is assistant text. */
  lemma RunRows(rows: seq<TimelineRow>, runs: seq<seq<ProjectionEntry>>, i: nat) returns (ps: seq<nat>)
    requires Flatten(runs) == Collapse(rows) && i < |runs|
    requires forall k :: 0 <= k < |runs[i]| ==> runs[i][k].item.Assistant?
    ensures Below(ps, |rows|) && |ps| == |runs[i]|
    ensures forall k, j :: 0 <= k < j < |ps| ==> ps[k] < ps[j]
    ensures forall k :: 0 <= k < |ps| ==> rows[ps[k]].item.Assistant? && runs[i][k] == Single(rows[ps[k]])
  {
    var o := RunOffset(runs, i);
    HeadsIncrease(rows);
    forall k | 0 <= k < |Collapse(rows)| && Collapse(rows)[k].item.Assistant?
      ensures rows[Heads(rows)[k]].item.Assistant? && Collapse(rows)[k] == Single(rows[Heads(rows)[k]])
    {
      AssistantAt(rows, k);
    }
    ps := SliceRows(rows, Heads(rows), Collapse(rows), runs[i], o);
  }

  lemma RunIsAssistant(run: seq<ProjectionEntry>)
    requires IsRun(run) && Combine(run).item.Assistant?
    ensures forall k :: 0 <= k < |run| ==> run[k].item.Assistant?
  {
    forall k | 0 <= k < |run| ensures run[k].item.Assistant? {
      if k < |run| - 1 {
        assert Mergeable(run[k], run[k + 1]);
      } else {
        CombineKeeps(run);
      }
    }
  }

  /** An assistant entry of the projection stands for assistant rows numbered
      exactly seqStart..seqEnd, in row order: its sources are those numbers, its
      text is theirs joined, and it is marked exactly when there is more than one. */
  lemma AssistantEntry(rows: seq<TimelineRow>, i: nat) returns (ps: seq<nat>)
    requires i < |Projection(rows)| && Projection(rows)[i].item.Assistant?
    ensures var e := Projection(rows)[i];
            && ChunksFrom(rows, ps, e.seqStart) && |ps| == e.seqEnd - e.seqStart + 1
            && e.sourceSeqs == NumbersFrom(e.seqStart, |ps|)
            && e.item.text == TextsAt(rows, ps)
            && e.collapsed == if |ps| > 1 then [AssistantMerge] else []
  {
    var es, runs := Collapse(rows), Runs(Collapse(rows));
    RunsAreMaximal(es);
    var run := runs[i];
    assert IsRun(run);
    RunIsAssistant(run);
    ps := RunRows(rows, runs, i);
    CombinedChunks(rows, ps, run);
  }

  lemma CombinedChunks(rows: seq<TimelineRow>, ps: seq<nat>, run: seq<ProjectionEntry>)
    requires Below(ps, |rows|) && |run| == |ps| && IsRun(run)
    requires forall i, j :: 0 <= i < j < |ps| ==> ps[i] < ps[j]
    requires forall k :: 0 <= k < |ps| ==> rows[ps[k]].item.Assistant? && run[k] == Single(rows[ps[k]])
    ensures var e := Combine(run);
            && e.item.Assistant?
            && ChunksFrom(rows, ps, e.seqStart) && |ps| == e.seqEnd - e.seqStart + 1
            && e.sourceSeqs == NumbersFrom(e.seqStart, |ps|)
            && e.item.text == TextsAt(rows, ps)
            && e.collapsed == if |ps| > 1 then [AssistantMerge] else []
  {
    CombineKeeps(run);
    RunOfChunks(rows, ps, run);
    assert run[|run| - 1] == Single(rows[ps[|run| - 1]]);
  }
}
