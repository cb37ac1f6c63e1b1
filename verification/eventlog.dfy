/** The event sequence (store.rs): append_event as micro-steps over a JSONL file
    and a SQL table, with failures and process crashes anywhere, and open(). */
module EventLog {
  import opened Options

  /** What is in the file: a complete JSON object, a newline, or part of an object. */
  datatype Piece = Json(seq_: nat, payload: string) | Newline | Torn

  datatype Row = Row(seq_: nat, payload: string)

  /** Where the running append stands; its event carries the counter as number. */
  datatype Pc =
    | Ready
    | ToJson(payload: string)
    | ToNewline(payload: string)
    | ToInsert(payload: string)
    | ToReply(payload: string)

  datatype Process = Down | Up(counter: nat, pc: Pc)

  /** file and table survive a crash; acks is what callers were told so far. */
  datatype State = State(file: seq<Piece>, table: seq<Row>, acks: seq<Row>, process: Process)

  datatype Action =
    | Bump(payload: string) | SerializeFails
    | WriteJson | JsonFails(torn: bool)
    | WriteNewline | NewlineFails
    | FlushFails
    | Insert | InsertFails
    | Reply
    | Crash(torn: bool)
    | Open

  const EMPTY: State := State([], [], [], Down)

  function MaxSeq(table: seq<Row>): nat {
    if table == [] then 0
    else
      var m, n := MaxSeq(table[..|table| - 1]), table[|table| - 1].seq_;
      if m < n then n else m
  }

  /** MAX(seq), and 0 on an empty table: no row lies above it, and it is taken. */
  lemma {:induction false} MaxSeqIs(table: seq<Row>)
    ensures forall r :: r in table ==> r.seq_ <= MaxSeq(table)
    ensures if table == [] then MaxSeq(table) == 0 else exists r :: r in table && r.seq_ == MaxSeq(table)
  {
    if table != [] {
      var init, r := table[..|table| - 1], table[|table| - 1];
      assert table == init + [r];
      assert r in table;
      MaxSeqIs(init);
      if MaxSeq(table) != r.seq_ {
        var q :| q in init && q.seq_ == MaxSeq(init);
        assert q in table;
      }
    }
  }

  predicate HasKey(table: seq<Row>, n: nat) {
    exists i :: 0 <= i < |table| && table[i].seq_ == n
  }

  lemma HasKeyIff(table: seq<Row>, n: nat)
    ensures HasKey(table, n) <==> exists r :: r in table && r.seq_ == n
  {
    if r :| r in table && r.seq_ == n {
      var i :| 0 <= i < |table| && table[i] == r;
    }
  }

  /** One micro-step; an action that is not due leaves the state alone. */
  function Act(s: State, a: Action): State {
    if s.process.Down? then
      if a.Open? then s.(process := Up(MaxSeq(s.table), Ready)) else s
    else
      var c := s.process.counter;
      match (a, s.process.pc)
      case (Bump(p), Ready) => s.(process := Up(c + 1, ToJson(p)))
      case (SerializeFails, ToJson(_)) => s.(process := Up(c, Ready))
      case (WriteJson, ToJson(p)) => s.(file := s.file + [Json(c, p)], process := Up(c, ToNewline(p)))
      case (JsonFails(torn), ToJson(_)) => s.(file := s.file + if torn then [Torn] else [], process := Up(c, Ready))
      case (WriteNewline, ToNewline(p)) => s.(file := s.file + [Newline], process := Up(c, ToInsert(p)))
      case (NewlineFails, ToNewline(_)) => s.(process := Up(c, Ready))
      case (FlushFails, ToInsert(_)) => s.(process := Up(c, Ready))
      case (Insert, ToInsert(p)) =>
        if HasKey(s.table, c) then s.(process := Up(c, Ready))
        else s.(table := s.table + [Row(c, p)], process := Up(c, ToReply(p)))
      case (InsertFails, ToInsert(_)) => s.(process := Up(c, Ready))
      case (Reply, ToReply(p)) => s.(acks := s.acks + [Row(c, p)], process := Up(c, Ready))
      case (Crash(torn), pc) => s.(file := s.file + if torn && pc.ToJson? then [Torn] else [], process := Down)
      case _ => s
  }

  function Exec(s: State, actions: seq<Action>): State {
    if actions == [] then s else Act(Exec(s, actions[..|actions| - 1]), actions[|actions| - 1])
  }

  // ---- The invariant -----------------------------------------------------

  ghost predicate Increasing(rows: seq<Row>) {
    forall i, j :: 0 <= i < j < |rows| ==> rows[i].seq_ < rows[j].seq_
  }

  ghost predicate Below(rows: seq<Row>, n: nat) {
    forall r :: r in rows ==> r.seq_ < n
  }

  ghost predicate LineAt(file: seq<Piece>, i: nat, r: Row) {
    i + 1 < |file| && file[i] == Json(r.seq_, r.payload) && file[i + 1] == Newline
  }

  /** The event's object is in the file with its newline behind it. */
  ghost predicate Logged(file: seq<Piece>, r: Row) {
    exists i: nat :: LineAt(file, i, r)
  }

  ghost predicate Consistent(s: State) {
    && Increasing(s.table) && Increasing(s.acks)
    && (forall r :: r in s.acks ==> r in s.table)
    && (forall r :: r in s.table ==> r.seq_ >= 1 && Logged(s.file, r))
    && (s.process.Up? ==> ProcessConsistent(s))
  }

  ghost predicate ProcessConsistent(s: State)
    requires s.process.Up?
  {
    var c := s.process.counter;
    match s.process.pc
    case Ready => Below(s.table, c + 1)
    case ToJson(_) => c >= 1 && Below(s.table, c)
    case ToNewline(p) => c >= 1 && Below(s.table, c) && s.file != [] && s.file[|s.file| - 1] == Json(c, p)
    case ToInsert(p) => c >= 1 && Below(s.table, c) && Logged(s.file, Row(c, p))
    case ToReply(p) => Below(s.acks, c) && Below(s.table, c + 1) && Row(c, p) in s.table
  }

  lemma LoggedMonotone(file: seq<Piece>, more: seq<Piece>, r: Row)
    requires Logged(file, r)
    ensures Logged(file + more, r)
  {
    var i: nat :| LineAt(file, i, r);
    assert LineAt(file + more, i, r);
  }

  lemma MaxSeqBounds(table: seq<Row>)
    ensures Below(table, MaxSeq(table) + 1)
  {
    MaxSeqIs(table);
  }

  lemma FileGrows(s: State, more: seq<Piece>)
    requires forall r :: r in s.table ==> Logged(s.file, r)
    ensures forall r :: r in s.table ==> Logged(s.file + more, r)
  {
    forall r | r in s.table ensures Logged(s.file + more, r) {
      LoggedMonotone(s.file, more, r);
    }
  }

  /** A row under a number above all others keeps the order. */
  lemma AppendRow(rows: seq<Row>, r: Row)
    requires Increasing(rows) && Below(rows, r.seq_)
    ensures Increasing(rows + [r]) && Below(rows + [r], r.seq_ + 1)
  {
    forall i | 0 <= i < |rows| ensures rows[i].seq_ < r.seq_ {
      assert rows[i] in rows;
    }
  }

  lemma NewlineLogs(s: State, p: string)
    requires s.process.Up? && s.file != [] && s.file[|s.file| - 1] == Json(s.process.counter, p)
    ensures Logged(s.file + [Newline], Row(s.process.counter, p))
  {
    assert LineAt(s.file + [Newline], |s.file| - 1, Row(s.process.counter, p));
  }

  /** The key a due insert uses is not in the table. */
  lemma InsertKeyIsNew(s: State)
    requires Consistent(s) && s.process.Up? && s.process.pc.ToInsert?
    ensures !HasKey(s.table, s.process.counter)
  {
    KeyAboveAll(s.table, s.process.counter);
  }

  lemma KeyAboveAll(table: seq<Row>, n: nat)
    requires Below(table, n)
    ensures !HasKey(table, n)
  {
    forall i | 0 <= i < |table| ensures table[i].seq_ != n {
      assert table[i] in table;
    }
  }

  lemma ActConsistent(s: State, a: Action)
    requires Consistent(s)
    ensures Consistent(Act(s, a))
  {
    if s.process.Down? {
      MaxSeqBounds(s.table);
    } else {
      var c := s.process.counter;
      match (a, s.process.pc)
      case (WriteJson, ToJson(p)) => FileGrows(s, [Json(c, p)]);
      case (JsonFails(torn), ToJson(_)) => FileGrows(s, [Torn]); FileGrows(s, []);
      case (WriteNewline, ToNewline(p)) => FileGrows(s, [Newline]); NewlineLogs(s, p);
      case (Insert, ToInsert(p)) => InsertKeyIsNew(s); AppendRow(s.table, Row(c, p));
      case (Reply, ToReply(p)) => AppendRow(s.acks, Row(c, p));
      case (Crash(torn), _) => FileGrows(s, [Torn]); FileGrows(s, []);
      case _ =>
    }
  }

  lemma {:induction false} RunsAreConsistent(actions: seq<Action>)
    ensures Consistent(Exec(EMPTY, actions))
  {
    if actions != [] {
      RunsAreConsistent(actions[..|actions| - 1]);
      ActConsistent(Exec(EMPTY, actions[..|actions| - 1]), actions[|actions| - 1]);
    }
  }

  // ---- What holds over any run -------------------------------------------

  /** Over any run of appends, failures, crashes and reopenings: acknowledged
      events have strictly increasing numbers, each is a SQL row, every SQL row has
      its object and newline in the file, and no due insert meets a used key. */
  lemma AcknowledgedEvents(actions: seq<Action>)
    ensures var s := Exec(EMPTY, actions);
            && Increasing(s.acks) && Increasing(s.table)
            && (forall r :: r in s.acks ==> r in s.table)
            && (forall r :: r in s.table ==> Logged(s.file, r))
            && (s.process.Up? && s.process.pc.ToInsert? ==> forall r :: r in s.table ==> r.seq_ != s.process.counter)
  {
    RunsAreConsistent(actions);
    var s := Exec(EMPTY, actions);
    if s.process.Up? && s.process.pc.ToInsert? {
      assert ProcessConsistent(s);
    }
  }

  /** Log first: whenever a row appears, its line was complete in the file before. */
  lemma LogPrecedesRow(actions: seq<Action>, a: Action, r: Row)
    requires var s := Exec(EMPTY, actions); r in Act(s, a).table && r !in s.table
    ensures Logged(Exec(EMPTY, actions).file, r)
  {
    RunsAreConsistent(actions);
  }

  // ---- Durability across the run -----------------------------------------

  lemma ActExtends(s: State, a: Action)
    ensures s.file <= Act(s, a).file && s.table <= Act(s, a).table && s.acks <= Act(s, a).acks
  {
  }

  /** Nothing written is ever taken back: file, table and acknowledgements only grow. */
  lemma {:induction false} RunsExtend(s: State, actions: seq<Action>)
    ensures var t := Exec(s, actions);
            s.file <= t.file && s.table <= t.table && s.acks <= t.acks
  {
    if actions != [] {
      RunsExtend(s, actions[..|actions| - 1]);
      ActExtends(Exec(s, actions[..|actions| - 1]), actions[|actions| - 1]);
    }
  }

  // ---- Lines of the file -------------------------------------------------

  ghost predicate EndsLine(file: seq<Piece>) {
    file == [] || file[|file| - 1] == Newline
  }

  /** The object at i is a whole line of its own, readable as one JSON value. */
  ghost predicate OwnLine(file: seq<Piece>, i: nat) {
    && i < |file| - 1 && file[i].Json? && file[i + 1] == Newline
    && EndsLine(file[..i])
  }

  ghost predicate OnOwnLine(file: seq<Piece>, r: Row) {
    exists i: nat :: OwnLine(file, i) && file[i] == Json(r.seq_, r.payload)
  }

  /** An action that leaves an unfinished line behind: a torn or unterminated
      object after a failed write, or a crash between object and newline. */
  predicate Tears(s: State, a: Action) {
    s.process.Up? &&
    match (a, s.process.pc)
    case (JsonFails(torn), ToJson(_)) => torn
    case (NewlineFails, ToNewline(_)) => true
    case (Crash(torn), ToJson(_)) => torn
    case (Crash(_), ToNewline(_)) => true
    case _ => false
  }

  function TearCount(actions: seq<Action>): nat {
    if actions == [] then 0
    else
      var init := actions[..|actions| - 1];
      TearCount(init) + if Tears(Exec(EMPTY, init), actions[|actions| - 1]) then 1 else 0
  }

  /** Some line was torn since a newline was last written. */
  predicate TornSinceNewline(actions: seq<Action>) {
    actions != [] &&
    var init, a := actions[..|actions| - 1], actions[|actions| - 1];
    var s := Exec(EMPTY, init);
    if Tears(s, a) then true
    else if s.process.Up? && s.process.pc.ToNewline? && a.WriteNewline? then false
    else TornSinceNewline(init)
  }

  /** An object whose newline is due is the last piece of the file. */
  predicate ObjectDue(s: State) {
    s.process.Up? && s.process.pc.ToNewline? ==> s.file != [] && s.file[|s.file| - 1].Json?
  }

  /** The file without the object whose newline is still due. */
  function Closed(s: State): seq<Piece> {
    if s.process.Up? && s.process.pc.ToNewline? && s.file != [] then s.file[..|s.file| - 1] else s.file
  }

  /** What an action makes of the file but for an object in writing. */
  lemma ActClosed(s: State, a: Action)
    requires ObjectDue(s)
    ensures var due := s.process.Up? && s.process.pc.ToNewline?;
            Closed(Act(s, a)) ==
            if due && a.WriteNewline? then s.file + [Newline]
            else if due && (a.NewlineFails? || a.Crash?) then s.file
            else if Tears(s, a) then s.file + [Torn]
            else Closed(s)
  {
    if s.process.Up? {
      assert s.file + [] == s.file;
      match (a, s.process.pc)
      case (WriteJson, ToJson(p)) => assert (s.file + [Json(s.process.counter, p)])[..|s.file|] == s.file;
      case _ =>
    }
  }

  /** One action: whether the file, but for an object in writing, ends a line. */
  lemma ActEndsLine(s: State, a: Action)
    requires ObjectDue(s)
    ensures EndsLine(Closed(Act(s, a))) <==>
            !Tears(s, a) && (EndsLine(Closed(s)) || (s.process.Up? && s.process.pc.ToNewline? && a.WriteNewline?))
  {
    ActClosed(s, a);
  }

  lemma {:induction false} EndsLineIff(actions: seq<Action>)
    ensures EndsLine(Closed(Exec(EMPTY, actions))) <==> !TornSinceNewline(actions)
  {
    if actions != [] {
      var init := actions[..|actions| - 1];
      EndsLineIff(init);
      RunsAreConsistent(init);
      ActEndsLine(Exec(EMPTY, init), actions[|actions| - 1]);
    }
  }

  lemma {:induction false} ExecConcat(s: State, first: seq<Action>, second: seq<Action>)
    ensures Exec(s, first + second) == Exec(Exec(s, first), second)
  {
    if second == [] {
      assert first + second == first;
    } else {
      var init := second[..|second| - 1];
      assert (first + second)[..|first + second| - 1] == first + init;
      ExecConcat(s, first, init);
    }
  }

  /** Over any run, torn lines and all: an object written after before is, once its
      newline stands behind it, a line of its own if and only if the file ended a line
      then, and that is if and only if no line had been torn since the newline before. */
  lemma OwnLineIff(before: seq<Action>, p: string, after: seq<Action>)
    requires Exec(EMPTY, before).process.Up? && Exec(EMPTY, before).process.pc == ToJson(p)
    ensures var s, t := Exec(EMPTY, before), Exec(EMPTY, before + [WriteJson] + after);
            var i := |s.file|;
            && i < |t.file| && t.file[i] == Json(s.process.counter, p)
            && (OwnLine(t.file, i) <==> i + 1 < |t.file| && t.file[i + 1] == Newline && EndsLine(s.file))
            && (EndsLine(s.file) <==> !TornSinceNewline(before))
  {
    var s, t := Exec(EMPTY, before), Exec(EMPTY, before + [WriteJson] + after);
    assert (before + [WriteJson])[..|before|] == before;
    var u := Exec(EMPTY, before + [WriteJson]);
    ExecConcat(EMPTY, before + [WriteJson], after);
    RunsExtend(u, after);
    assert t.file[..|s.file|] == u.file[..|s.file|] == s.file;
    EndsLineIff(before);
  }

  // ---- How many objects torn lines cost ----------------------------------

  ghost predicate Spoiled(file: seq<Piece>, i: nat) {
    i + 1 < |file| && file[i].Json? && file[i + 1] == Newline && !EndsLine(file[..i])
  }

  /** The terminated objects that share a line with something torn. */
  ghost function SpoiledAt(file: seq<Piece>): set<nat> {
    set i: nat | i < |file| && Spoiled(file, i)
  }

  lemma SpoiledGrows(file: seq<Piece>, x: Piece)
    ensures SpoiledAt(file + [x]) ==
            if file != [] && x == Newline && file[|file| - 1].Json? && !EndsLine(file[..|file| - 1])
            then SpoiledAt(file) + {|file| - 1} else SpoiledAt(file)
  {
    var all := file + [x];
    forall i: nat | i < |file| ensures all[..i] == file[..i] && all[i] == file[i] {}
    forall i: nat | i + 1 < |file| ensures Spoiled(all, i) <==> Spoiled(file, i) {
      assert all[i + 1] == file[i + 1];
    }
    if file != [] {
      assert all[|file|] == x;
    }
  }

  /** One for the next object, if it is going to share its line. */
  ghost function Pending(s: State): nat {
    if EndsLine(Closed(s)) then 0 else 1
  }

  lemma NewlineSpoils(file: seq<Piece>)
    requires file != [] && file[|file| - 1].Json?
    ensures |SpoiledAt(file + [Newline])| == |SpoiledAt(file)| + if EndsLine(file[..|file| - 1]) then 0 else 1
  {
    SpoiledGrows(file, Newline);
  }

  lemma ActSpoils(s: State, a: Action)
    requires ObjectDue(s)
    ensures |SpoiledAt(Act(s, a).file)| + Pending(Act(s, a)) <= |SpoiledAt(s.file)| + Pending(s) + if Tears(s, a) then 1 else 0
  {
    ActEndsLine(s, a);
    if s.process.Up? {
      assert s.file + [] == s.file;
      match (a, s.process.pc)
      case (WriteJson, ToJson(p)) => SpoiledGrows(s.file, Json(s.process.counter, p));
      case (WriteNewline, ToNewline(_)) => NewlineSpoils(s.file);
      case (JsonFails(_), ToJson(_)) => SpoiledGrows(s.file, Torn);
      case (Crash(_), ToJson(_)) => SpoiledGrows(s.file, Torn);
      case _ =>
    }
  }

  /** Over any run, no more objects lose their line than lines were torn: a torn line
      swallows at most the next object written. */
  lemma {:induction false} SpoiledAtMostTorn(actions: seq<Action>)
    ensures |SpoiledAt(Exec(EMPTY, actions).file)| + Pending(Exec(EMPTY, actions)) <= TearCount(actions)
  {
    if actions != [] {
      var init := actions[..|actions| - 1];
      SpoiledAtMostTorn(init);
      RunsAreConsistent(init);
      ActSpoils(Exec(EMPTY, init), actions[|actions| - 1]);
    }
  }

  /** Rows found at pairwise different places are no more than the places. */
  lemma {:induction false} RowsAtPlaces(rows: set<Row>, file: seq<Piece>, places: set<nat>)
    requires forall r :: r in rows ==> exists i: nat :: i in places && i < |file| && file[i] == Json(r.seq_, r.payload)
    ensures |rows| <= |places|
  {
    if r :| r in rows {
      var i: nat :| i in places && i < |file| && file[i] == Json(r.seq_, r.payload);
      forall q | q in rows - {r}
        ensures exists k: nat :: k in places - {i} && k < |file| && file[k] == Json(q.seq_, q.payload)
      {
        var k: nat :| k in places && k < |file| && file[k] == Json(q.seq_, q.payload);
        assert k != i;
      }
      RowsAtPlaces(rows - {r}, file, places - {i});
    }
  }

  ghost function RowsWithoutLine(s: State): set<Row> {
    set r | r in s.table && !OnOwnLine(s.file, r)
  }

  /** So of all SQL rows at most as many lack a line of their own as lines were torn. */
  lemma RowsWithoutLineBound(actions: seq<Action>)
    ensures |RowsWithoutLine(Exec(EMPTY, actions))| <= TearCount(actions)
  {
    var s := Exec(EMPTY, actions);
    RunsAreConsistent(actions);
    forall r | r in RowsWithoutLine(s)
      ensures exists i: nat :: i in SpoiledAt(s.file) && i < |s.file| && s.file[i] == Json(r.seq_, r.payload)
    {
      var i: nat :| LineAt(s.file, i, r);
      assert !OwnLine(s.file, i);
      assert i in SpoiledAt(s.file);
    }
    RowsAtPlaces(RowsWithoutLine(s), s.file, SpoiledAt(s.file));
    SpoiledAtMostTorn(actions);
  }

  /** In particular none does while no line is torn. */
  lemma RowsHaveOwnLines(actions: seq<Action>)
    requires TearCount(actions) == 0
    ensures forall r :: r in Exec(EMPTY, actions).table ==> OnOwnLine(Exec(EMPTY, actions).file, r)
  {
    RowsWithoutLineBound(actions);
    forall r | r in Exec(EMPTY, actions).table ensures OnOwnLine(Exec(EMPTY, actions).file, r) {
      assert RowsWithoutLine(Exec(EMPTY, actions)) == {};
      assert r !in RowsWithoutLine(Exec(EMPTY, actions));
    }
  }

  /** A crash in the middle of the first object, and a new process. */
  lemma CrashTears(a: string) returns (actions: seq<Action>, s: State)
    ensures s == Exec(EMPTY, actions) && s == State([Torn], [], [], Up(0, Ready))
  {
    var up := EMPTY.(process := Up(0, Ready));
    var torn := EMPTY.(file := [Torn], process := Down);
    actions := [Open, Bump(a), Crash(true), Open];
    assert EMPTY.file + [Torn] == [Torn];
    s := torn.(process := Up(0, Ready));
    TraceIsARun(actions, [EMPTY, up, Act(up, Bump(a)), torn, s]);
  }

  lemma NextLine(s: State, p: string) returns (actions: seq<Action>, t: State)
    requires s.process.Up? && s.process.pc.Ready? && s.process.counter == 0 && s.table == s.acks == []
    ensures t == Exec(s, actions)
    ensures t.file == s.file + [Json(1, p)] + [Newline] && t.table == t.acks == [Row(1, p)]
  {
    actions := AppendIsARun(s, p, NoFault);
    t := Appended(s, p, NoFault);
  }

  lemma SharesLine(file: seq<Piece>, r: Row)
    requires file == [Torn] + [Json(r.seq_, r.payload)] + [Newline]
    ensures !OnOwnLine(file, r)
  {
    forall i: nat ensures !OwnLine(file, i) {
      if i == 1 {
        assert file[..1] == [Torn];
      }
    }
  }

  /** The bound is reached: a crash tears the first object, and the next event, although
      stored and acknowledged, has no line of its own. */
  lemma TornLineSpoilsNext(a: string, b: string) returns (actions: seq<Action>, s: State)
    ensures s == Exec(EMPTY, actions) && s.acks == s.table == [Row(1, b)]
    ensures s.file == [Torn] + [Json(1, b)] + [Newline] && !OnOwnLine(s.file, Row(1, b))
  {
    var crash, again := CrashTears(a);
    var append;
    append, s := NextLine(again, b);
    ExecConcat(EMPTY, crash, append);
    actions := crash + append;
    SharesLine(s.file, Row(1, b));
  }

  // ---- When the numbers in the file are unique ---------------------------

  ghost predicate UniqueNumbers(file: seq<Piece>) {
    forall i, j :: 0 <= i < j < |file| && file[i].Json? && file[j].Json? ==> file[i].seq_ != file[j].seq_
  }

  ghost predicate NoneAbove(file: seq<Piece>, n: int) {
    forall i :: 0 <= i < |file| && file[i].Json? ==> file[i].seq_ <= n
  }

  /** No object in the file carries a number above those stored in SQL. */
  ghost predicate CaughtUp(s: State) {
    NoneAbove(s.file, MaxSeq(s.table))
  }

  /** The numbers are unique and the next one to be written is not among them. */
  ghost predicate Numbered(s: State) {
    && UniqueNumbers(s.file)
    && (s.process.Up? ==> NoneAbove(s.file, if s.process.pc.ToJson? then s.process.counter - 1 else s.process.counter))
  }

  lemma ActNumbered(s: State, a: Action)
    requires Numbered(s) && (s.process.Down? && a.Open? ==> CaughtUp(s))
    ensures Numbered(Act(s, a))
  {
  }

  /** At every reopening of the run the table has caught up with the file. */
  ghost predicate OpensCaughtUp(s: State, actions: seq<Action>) {
    actions == [] ||
    (OpensCaughtUp(s, actions[..|actions| - 1]) &&
     var before := Exec(s, actions[..|actions| - 1]);
     (before.process.Down? && actions[|actions| - 1].Open? ==> CaughtUp(before)))
  }

  lemma {:induction false} NumberedRun(s: State, actions: seq<Action>)
    requires Numbered(s) && OpensCaughtUp(s, actions)
    ensures Numbered(Exec(s, actions))
  {
    if actions != [] {
      NumberedRun(s, actions[..|actions| - 1]);
      ActNumbered(Exec(s, actions[..|actions| - 1]), actions[|actions| - 1]);
    }
  }

  /** Over any run whose reopenings all find the table caught up with the file, the
      numbers in the file are unique. */
  lemma UniqueIfCaughtUp(actions: seq<Action>)
    requires OpensCaughtUp(EMPTY, actions)
    ensures UniqueNumbers(Exec(EMPTY, actions).file)
  {
    NumberedRun(EMPTY, actions);
  }

  predicate CrashFree(actions: seq<Action>) {
    forall a :: a in actions ==> !a.Crash?
  }

  /** A running process writes every number above its counter in time. */
  lemma {:induction false} WritesUpTo(s: State, n: nat, p: string) returns (actions: seq<Action>, k: nat)
    requires Consistent(s) && s.process.Up? && s.process.pc.Ready? && s.process.counter < n
    ensures CrashFree(actions)
    ensures s.file <= Exec(s, actions).file && |s.file| <= k < |Exec(s, actions).file|
    ensures Exec(s, actions).file[k] == Json(n, p)
    decreases n - s.process.counter
  {
    AppendConsistent(s, p, NoFault);
    actions := AppendIsARun(s, p, NoFault);
    if s.process.counter + 1 < n {
      var more;
      more, k := WritesUpTo(Appended(s, p, NoFault), n, p);
      ExecConcat(s, actions, more);
      actions := actions + more;
    } else {
      k := |s.file|;
    }
  }

  /** After any run that leaves the process down: the numbers in the file are unique
      over every continuation without another crash if and only if they are now and
      the table has caught up with the file when it is reopened. */
  lemma StaysUniqueIff(actions: seq<Action>)
    requires Exec(EMPTY, actions).process.Down?
    ensures var s := Exec(EMPTY, actions);
            (forall more :: CrashFree(more) ==> UniqueNumbers(Exec(Act(s, Open), more).file)) <==>
            UniqueNumbers(s.file) && CaughtUp(s)
  {
    RunsAreConsistent(actions);
    UniqueAfterOpen(Exec(EMPTY, actions));
  }

  lemma UniqueAfterOpen(s: State)
    requires Consistent(s) && s.process.Down?
    ensures (forall more :: CrashFree(more) ==> UniqueNumbers(Exec(Act(s, Open), more).file)) <==>
            UniqueNumbers(s.file) && CaughtUp(s)
  {
    var up := Act(s, Open);
    if !UniqueNumbers(s.file) {
      assert CrashFree([]) && Exec(up, []).file == s.file;
    } else if CaughtUp(s) {
      forall more | CrashFree(more) ensures UniqueNumbers(Exec(up, more).file) {
        CrashFreeStaysUp(up, more);
        NumberedRun(up, more);
      }
    } else {
      var i :| 0 <= i < |s.file| && s.file[i].Json? && s.file[i].seq_ > MaxSeq(s.table);
      ActConsistent(s, Open);
      var more, k := WritesUpTo(up, s.file[i].seq_, s.file[i].payload);
      var file := Exec(up, more).file;
      assert file[i] == s.file[i] == file[k];
      assert !UniqueNumbers(file);
    }
  }

  lemma {:induction false} CrashFreeStaysUp(s: State, actions: seq<Action>)
    requires s.process.Up? && CrashFree(actions)
    ensures Exec(s, actions).process.Up? && OpensCaughtUp(s, actions)
  {
    if actions != [] {
      assert actions[|actions| - 1] in actions;
      CrashFreeStaysUp(s, actions[..|actions| - 1]);
    }
  }

  /** A crash between line and row leaves such a state: the next process writes the
      same number again. */
  lemma NumbersRepeat(a: string, b: string) returns (actions: seq<Action>, s: State)
    ensures s == Exec(EMPTY, actions)
    ensures s.file == [Json(1, a)] + [Newline] + [Json(1, b)] && !UniqueNumbers(s.file)
  {
    var up := EMPTY.(process := Up(0, Ready));
    var a1, a2, a3 := LineSteps(up, a);
    var down := a3.(process := Down);
    var again := a3.(process := Up(0, Ready));
    var b1, b2, _ := LineSteps(again, b);
    actions := [Open, Bump(a), WriteJson, WriteNewline, Crash(false), Open, Bump(b), WriteJson];
    assert a3.file + [] == a3.file;
    TraceIsARun(actions, [EMPTY, up, a1, a2, a3, down, again, b1, b2]);
    s := b2;
    assert s.file[0] == Json(1, a) && s.file[2] == Json(1, b);
  }

  // ---- The store object --------------------------------------------------

  datatype Fault = NoFault | BadPayload | BadJson(torn: bool) | BadNewline | BadFlush | BadInsert

  /** What one append leaves in the file. */
  function Written(file: seq<Piece>, n: nat, payload: string, f: Fault): seq<Piece> {
    match f
    case BadPayload => file
    case BadJson(torn) => if torn then file + [Torn] else file
    case BadNewline => file + [Json(n, payload)]
    case _ => file + [Json(n, payload)] + [Newline]
  }

  /** Piece by piece: nothing is taken back; a failing payload or an untorn write adds
      nothing, a torn one its torn part, and everything later the object, terminated
      unless the newline was what failed. */
  lemma WrittenIs(file: seq<Piece>, n: nat, payload: string, f: Fault)
    ensures var k, after := |file|, Written(file, n, payload, f);
            && file <= after
            && (|after| == k <==> f == BadPayload || f == BadJson(false))
            && (|after| == k + 1 && after[k] == Torn <==> f == BadJson(true))
            && (|after| > k && after[k] == Json(n, payload) <==> f != BadPayload && !f.BadJson?)
            && (|after| == k + 2 && after[k + 1] == Newline <==> f == NoFault || f == BadFlush || f == BadInsert)
  {
  }

  /** What one whole append leaves behind, by the point at which it fails. */
  function Appended(s: State, payload: string, f: Fault): State
    requires s.process.Up?
  {
    var n := s.process.counter + 1;
    var file := Written(s.file, n, payload, f);
    if f == NoFault then State(file, s.table + [Row(n, payload)], s.acks + [Row(n, payload)], Up(n, Ready))
    else State(file, s.table, s.acks, Up(n, Ready))
  }

  /** The number is used up whatever happens; row and acknowledgement are there
      exactly if nothing fails. */
  lemma AppendedIs(s: State, payload: string, f: Fault)
    requires s.process.Up?
    ensures var t, n := Appended(s, payload, f), s.process.counter + 1;
            && t.process == Up(n, Ready)
            && (t.table == s.table + [Row(n, payload)] && t.acks == s.acks + [Row(n, payload)] <==> f == NoFault)
            && (t.table == s.table && t.acks == s.acks <==> f != NoFault)
  {
  }

  class EventStore {
    var eventSeq: nat
    var file: seq<Piece>
    var table: seq<Row>
    ghost var acks: seq<Row>

    ghost function View(): State
      reads this
    {
      State(file, table, acks, Up(eventSeq, Ready))
    }

    ghost predicate Valid()
      reads this
    {
      Consistent(View())
    }

    /** open(): the counter restarts from the largest stored number. */
    constructor Open(file: seq<Piece>, table: seq<Row>, ghost acks: seq<Row>)
      requires Consistent(State(file, table, acks, Down))
      ensures Valid() && View() == Act(State(file, table, acks, Down), Action.Open)
      ensures this.file == file && this.table == table && this.acks == acks
      ensures forall r :: r in table ==> r.seq_ <= eventSeq
      ensures if table == [] then eventSeq == 0 else exists r :: r in table && r.seq_ == eventSeq
    {
      var max := 0;
      for i := 0 to |table|
        invariant max == MaxSeq(table[..i])
      {
        assert table[..i + 1][..i] == table[..i];
        if max < table[i].seq_ {
          max := table[i].seq_;
        }
      }
      assert table[..|table|] == table;
      eventSeq, this.file, this.table, this.acks := max, file, table, acks;
      ActConsistent(State(file, table, acks, Down), Action.Open);
      MaxSeqIs(table);
    }

    lemma ValidAt(s: State)
      requires View() == s && Consistent(s)
      ensures Valid()
    {
    }

    /** Serialise, write object and newline, flush. */
    method WriteLine(payload: string, f: Fault) returns (ok: bool)
      modifies this`file
      ensures file == Written(old(file), eventSeq, payload, f)
      ensures ok <==> f == NoFault || f == BadInsert
    {
      if f == BadPayload {
        return false;
      }
      if f.BadJson? {
        if f.torn {
          file := file + [Torn];
        }
        return false;
      }
      file := file + [Json(eventSeq, payload)];
      if f == BadNewline {
        return false;
      }
      file := file + [Newline];
      return f != BadFlush;
    }

    /** INSERT under a primary key; writeOk says whether SQLite could write at all. */
    method Insert(row: Row, writeOk: bool) returns (ok: bool)
      modifies this`table
      ensures ok <==> writeOk && !HasKey(old(table), row.seq_)
      ensures table == if ok then old(table) + [row] else old(table)
    {
      ok := writeOk && !HasKey(table, row.seq_);
      if ok {
        table := table + [row];
      }
    }

    /** The statements of append_event, on a store whose next number is free. */
    method TryAppend(payload: string, f: Fault) returns (r: Option<nat>)
      requires !HasKey(table, eventSeq + 1)
      modifies this
      ensures View() == Appended(old(View()), payload, f)
      ensures r == if f == NoFault then Some(old(eventSeq) + 1) else None
    {
      r := None;
      eventSeq := eventSeq + 1;
      var ok := WriteLine(payload, f);
      if ok {
        ok := Insert(Row(eventSeq, payload), f != BadInsert);
        if ok {
          acks := acks + [Row(eventSeq, payload)];
          r := Some(eventSeq);
        }
      }
    }

    method AppendEvent(payload: string, f: Fault) returns (r: Option<nat>)
      requires Valid()
      modifies this
      ensures Valid()
      ensures View() == Appended(old(View()), payload, f)
      ensures r == if f == NoFault then Some(old(eventSeq) + 1) else None
      ensures r.Some? ==> Below(old(acks), r.value) && acks == old(acks) + [Row(r.value, payload)]
    {
      ghost var after := Appended(View(), payload, f);
      AppendConsistent(View(), payload, f);
      r := TryAppend(payload, f);
      ValidAt(after);
    }
  }

  lemma {:induction false} ConsistentRun(s: State, actions: seq<Action>)
    requires Consistent(s)
    ensures Consistent(Exec(s, actions))
  {
    if actions != [] {
      ConsistentRun(s, actions[..|actions| - 1]);
      ActConsistent(Exec(s, actions[..|actions| - 1]), actions[|actions| - 1]);
    }
  }

  /** The states a run passes through, one action between any two neighbours. */
  ghost predicate Trace(actions: seq<Action>, states: seq<State>) {
    |states| == |actions| + 1 && forall i :: 0 <= i < |actions| ==> states[i + 1] == Act(states[i], actions[i])
  }

  lemma {:induction false} TraceIsARun(actions: seq<Action>, states: seq<State>)
    requires Trace(actions, states)
    ensures Exec(states[0], actions) == states[|actions|]
  {
    if actions != [] {
      var n := |actions| - 1;
      TraceIsARun(actions[..n], states[..n + 1]);
      assert states[n + 1] == Act(states[n], actions[n]);
    }
  }

  /** Bump, object and newline, taken one micro-step at a time. */
  lemma LineSteps(s: State, payload: string) returns (s1: State, s2: State, s3: State)
    requires s.process.Up? && s.process.pc.Ready?
    ensures s1 == Act(s, Bump(payload)) == s.(process := Up(s.process.counter + 1, ToJson(payload)))
    ensures s2 == Act(s1, WriteJson) ==
            s.(file := s.file + [Json(s.process.counter + 1, payload)], process := Up(s.process.counter + 1, ToNewline(payload)))
    ensures s3 == Act(s2, WriteNewline) ==
            s.(file := s2.file + [Newline], process := Up(s.process.counter + 1, ToInsert(payload)))
  {
    s1 := Act(s, Bump(payload));
    s2 := Act(s1, WriteJson);
    s3 := Act(s2, WriteNewline);
  }

  /** The states of one append that succeeds. */
  lemma CompleteTrace(s: State, payload: string) returns (actions: seq<Action>, states: seq<State>)
    requires s.process.Up? && s.process.pc.Ready? && !HasKey(s.table, s.process.counter + 1)
    ensures Trace(actions, states) && states[0] == s && states[|actions|] == Appended(s, payload, NoFault)
    ensures CrashFree(actions)
  {
    var s1, s2, s3 := LineSteps(s, payload);
    actions := [Bump(payload), WriteJson, WriteNewline, Insert, Reply];
    states := [s, s1, s2, s3, Act(s3, Insert), Appended(s, payload, NoFault)];
  }

  /** The states of one append, under a fault or none. */
  lemma AppendTrace(s: State, payload: string, f: Fault) returns (actions: seq<Action>, states: seq<State>)
    requires s.process.Up? && s.process.pc.Ready? && !HasKey(s.table, s.process.counter + 1)
    ensures Trace(actions, states) && states[0] == s && states[|actions|] == Appended(s, payload, f)
    ensures CrashFree(actions)
  {
    var s1, s2, s3 := LineSteps(s, payload);
    match f
    case BadPayload =>
      actions, states := [Bump(payload), SerializeFails], [s, s1, Appended(s, payload, f)];
    case BadJson(torn) =>
      actions, states := [Bump(payload), JsonFails(torn)], [s, s1, Appended(s, payload, f)];
    case BadNewline =>
      actions, states := [Bump(payload), WriteJson, NewlineFails], [s, s1, s2, Appended(s, payload, f)];
    case BadFlush =>
      actions, states := [Bump(payload), WriteJson, WriteNewline, FlushFails], [s, s1, s2, s3, Appended(s, payload, f)];
    case BadInsert =>
      actions, states := [Bump(payload), WriteJson, WriteNewline, InsertFails], [s, s1, s2, s3, Appended(s, payload, f)];
    case NoFault =>
      actions, states := CompleteTrace(s, payload);
  }

  /** Every append, faulty or not, is a run of micro-steps. */
  lemma AppendIsARun(s: State, payload: string, f: Fault) returns (actions: seq<Action>)
    requires s.process.Up? && s.process.pc.Ready? && !HasKey(s.table, s.process.counter + 1)
    ensures Exec(s, actions) == Appended(s, payload, f) && CrashFree(actions)
  {
    var states;
    actions, states := AppendTrace(s, payload, f);
    TraceIsARun(actions, states);
  }

  /** So an append keeps what runs keep, and its number is new to table and callers. */
  lemma AppendConsistent(s: State, payload: string, f: Fault)
    requires Consistent(s) && s.process.Up? && s.process.pc.Ready?
    ensures Consistent(Appended(s, payload, f))
    ensures !HasKey(s.table, s.process.counter + 1) && Below(s.acks, s.process.counter + 1)
  {
    KeyAboveAll(s.table, s.process.counter + 1);
    var actions := AppendIsARun(s, payload, f);
    ConsistentRun(s, actions);
  }
}
