/** The log-plus-index store: transactions that append to the shard files and then
    write a table, and the rebuild that replays the files. Rotation is off. */
module LogStore {
  import opened LogReplay

  // SaveItem goes to the shard of its registration day, UpdateItem to the clock's.
  datatype TxOp =
    | SaveItem(row: Row)
    | UpdateItem(row: Row, today: int)
    | SaveRule(version: int)

  datatype Tables = Tables(items: Table, rules: set<int>)

  function DayOf(op: TxOp): int
    requires !op.SaveRule?
  {
    match op
    case SaveItem(row) => row.fixed.registeredDay
    case UpdateItem(_, today) => today
  }

  predicate RefTaken(items: Table, ref: string) {
    exists id :: id in items && items[id].fixed.externalRef == ref
  }

  /** The table write of one operation is refused: primary key, unique reference, or no row to update. */
  predicate Refused(t: Tables, op: TxOp) {
    match op
    case SaveItem(row) => row.id in t.items || RefTaken(t.items, row.fixed.externalRef)
    case UpdateItem(row, _) => row.id !in t.items
    case SaveRule(version) => version in t.rules
  }

  /** A second row of an ID, a reference or a version is refused, and an update of no row; nothing
      else is. */
  lemma RefusedExactly(t: Tables, row: Row, today: int, version: int)
    ensures Refused(t, SaveItem(row)) <==> row.id in t.items || exists id :: id in t.items && t.items[id].fixed.externalRef == row.fixed.externalRef
    ensures Refused(t, UpdateItem(row, today)) <==> row.id !in t.items
    ensures Refused(t, SaveRule(version)) <==> version in t.rules
  {
  }

  function Written(t: Tables, op: TxOp): Tables {
    match op
    case SaveItem(row) => t.(items := Upsert(t.items, row))
    case UpdateItem(row, _) => t.(items := Upsert(t.items, row))
    case SaveRule(version) => t.(rules := t.rules + {version})
  }

  /** The tables after all operations of a transaction. */
  function AllWritten(t: Tables, ops: seq<TxOp>): Tables {
    if ops == [] then t else Written(AllWritten(t, ops[..|ops| - 1]), ops[|ops| - 1])
  }

  /** Operation i of a transaction goes through: its line is written and its table write is
      not refused after the operations before it. */
  predicate GoesThrough(t: Tables, ops: seq<TxOp>, unwritable: set<nat>, i: nat)
    requires i < |ops|
  {
    i !in unwritable && !Refused(AllWritten(t, ops[..i]), ops[i])
  }

  /** The item lines a transaction appends. */
  function LinesOf(ops: seq<TxOp>, committed: bool): seq<Write> {
    if ops == [] then []
    else
      var op, before := ops[|ops| - 1], LinesOf(ops[..|ops| - 1], committed);
      if op.SaveRule? then before else before + [Write(DayOf(op), op.row, committed)]
  }

  /** Operations of a transaction that write their line: all that are reached, the failing
      one included unless it is its shard append that fails. */
  function AppendedBy(t: Tables, ops: seq<TxOp>, unwritable: set<nat>, from: nat := 0): (n: nat)
    requires from <= |ops|
    ensures from <= n <= |ops|
    decreases |ops| - from
  {
    if from == |ops| || from in unwritable then from
    else if !GoesThrough(t, ops, unwritable, from) then from + 1
    else AppendedBy(t, ops, unwritable, from + 1)
  }

  function RulesOf(ops: seq<TxOp>): set<int> {
    set op | op in ops && op.SaveRule? :: op.version
  }

  lemma AppendLine(h: seq<Write>, lines: seq<Write>, w: Write, day: int)
    ensures RowsOn(h + (lines + [w]), day) == if day == w.day then RowsOn(h + lines, day) + [w.row] else RowsOn(h + lines, day)
    ensures TableOf(h + (lines + [w])) == if w.committed then Upsert(TableOf(h + lines), w.row) else TableOf(h + lines)
  {
    assert h + (lines + [w]) == (h + lines) + [w];
    assert ((h + lines) + [w])[..|h + lines|] == h + lines;
  }

  ghost predicate DistinctRefs(items: Table) {
    forall a, b :: a in items && b in items && items[a].fixed.externalRef == items[b].fixed.externalRef ==> a == b
  }

  /** What the scan of the shard directory returns: every file, once. */
  ghost predicate ListsDays(listed: seq<int>, files: Files) {
    && (forall d :: d in files <==> d in listed)
    && forall i, j :: 0 <= i < j < |listed| ==> listed[i] != listed[j]
  }

  type Files = map<int, seq<Row>>

  function FileRows(files: Files, day: int): seq<Row> {
    if day in files then files[day] else []
  }

  function WithLine(files: Files, op: TxOp): Files {
    if op.SaveRule? then files else files[DayOf(op) := FileRows(files, DayOf(op)) + [op.row]]
  }

  /** The files hold exactly the lines of a history. */
  ghost predicate FilesHold(files: Files, history: seq<Write>) {
    && (forall d :: FileRows(files, d) == RowsOn(history, d))
    && (forall d :: d in files ==> files[d] != [])
  }

  /** The files hold the history and the lines of the operations done so far; the tables
      are what the history would give if these lines were to commit. */
  ghost predicate InSync(files: Files, t: Tables, h: seq<Write>, done: seq<TxOp>) {
    && FilesHold(files, h + LinesOf(done, false))
    && FilesHold(files, h + LinesOf(done, true))
    && TableOf(h + LinesOf(done, false)) == TableOf(h)
    && t.items == TableOf(h + LinesOf(done, true))
  }

  lemma StartInSync(files: Files, t: Tables, h: seq<Write>)
    requires FilesHold(files, h)
    requires t.items == TableOf(h)
    ensures InSync(files, t, h, [])
  {
    assert h + [] == h;
  }

  lemma OneMoreLine(files: Files, log: seq<Write>, w: Write)
    requires FilesHold(files, log)
    ensures FilesHold(files[w.day := FileRows(files, w.day) + [w.row]], log + [w])
  {
    var after := files[w.day := FileRows(files, w.day) + [w.row]];
    assert (log + [w])[..|log|] == log;
    forall d
      ensures FileRows(after, d) == RowsOn(log + [w], d)
    {
      assert FileRows(files, d) == RowsOn(log, d);
    }
  }

  lemma FilesAfterAppend(files: Files, h: seq<Write>, done: seq<TxOp>, op: TxOp, committed: bool)
    requires FilesHold(files, h + LinesOf(done, committed))
    ensures FilesHold(WithLine(files, op), h + LinesOf(done + [op], committed))
  {
    assert (done + [op])[..|done|] == done;
    if !op.SaveRule? {
      var w := Write(DayOf(op), op.row, committed);
      OneMoreLine(files, h + LinesOf(done, committed), w);
      assert h + LinesOf(done + [op], committed) == h + LinesOf(done, committed) + [w];
    }
  }

  lemma TableAfterAppend(h: seq<Write>, done: seq<TxOp>, op: TxOp, committed: bool)
    ensures TableOf(h + LinesOf(done + [op], committed))
            == if committed && !op.SaveRule? then Upsert(TableOf(h + LinesOf(done, committed)), op.row) else TableOf(h + LinesOf(done, committed))
  {
    assert (done + [op])[..|done|] == done;
    if !op.SaveRule? {
      AppendLine(h, LinesOf(done, committed), Write(DayOf(op), op.row, committed), DayOf(op));
    }
  }

  lemma {:induction false} LineIsFiled(history: seq<Write>, w: Write)
    requires w in history
    ensures w.row in RowsOn(history, w.day)
  {
    var n := |history| - 1;
    if w != history[n] {
      LineIsFiled(history[..n], w);
    }
  }

  lemma {:induction false} LinesDifferByMark(ops: seq<TxOp>)
    ensures SameLines(LinesOf(ops, false), LinesOf(ops, true))
  {
    if ops != [] {
      LinesDifferByMark(ops[..|ops| - 1]);
    }
  }

  function AllAppended(files: Files, ops: seq<TxOp>): Files {
    if ops == [] then files else WithLine(AllAppended(files, ops[..|ops| - 1]), ops[|ops| - 1])
  }

  /** What a caller can see to before it writes: a new item gets an ID no line has; an update
      repeats the stored fixed columns and is dated no earlier than the lines of its item. */
  ghost predicate Careful(files: Files, t: Tables, op: TxOp) {
    match op
    case SaveItem(row) => forall d, r :: d in files && r in files[d] ==> r.id != row.id
    case UpdateItem(row, today) =>
      && row.id in t.items && row.fixed == t.items[row.id].fixed
      && forall d, r :: d in files && r in files[d] && r.id == row.id ==> d <= today
    case SaveRule(_) => true
  }

  ghost predicate CarefulTx(files: Files, t: Tables, ops: seq<TxOp>) {
    forall i :: 0 <= i < |ops| ==> Careful(AllAppended(files, ops[..i]), AllWritten(t, ops[..i]), ops[i])
  }

  lemma CarefulLine(files: Files, t: Tables, log: seq<Write>, full: seq<Write>, op: TxOp, x: Write)
    requires FilesHold(files, log) && SameLines(log, full) && t.items == TableOf(full)
    requires Orderly(log) && Careful(files, t, op)
    requires !op.SaveRule? && x in log && x.row.id == op.row.id
    ensures x.day <= DayOf(op) && x.row.fixed == op.row.fixed
  {
    LineIsFiled(log, x);
    assert x.row in FileRows(files, x.day);
    SameLinesReplay(log, full);
    FixedColumnsLive(full, op.row.id);
    var i :| 0 <= i < |full| && full[i].row.id == op.row.id && full[i].row.fixed == t.items[op.row.id].fixed;
    assert log[i].row == full[i].row;
  }

  /** A careful operation keeps the log in order. */
  lemma CarefulAppend(files: Files, t: Tables, h: seq<Write>, done: seq<TxOp>, op: TxOp)
    requires InSync(files, t, h, done) && Careful(files, t, op)
    requires Orderly(h + LinesOf(done, false))
    ensures Orderly(h + LinesOf(done + [op], false))
  {
    assert (done + [op])[..|done|] == done;
    if !op.SaveRule? {
      var log, full, w := h + LinesOf(done, false), h + LinesOf(done, true), Write(DayOf(op), op.row, false);
      LinesDifferByMark(done);
      forall x | x in log && x.row.id == op.row.id
        ensures x.day <= DayOf(op) && x.row.fixed == op.row.fixed
      {
        CarefulLine(files, t, log, full, op, x);
      }
      OrderlyAppend(log, w);
      assert h + LinesOf(done + [op], false) == log + [w];
    }
  }

  lemma AppendInSync(files: Files, t: Tables, h: seq<Write>, done: seq<TxOp>, op: TxOp)
    requires InSync(files, t, h, done)
    ensures InSync(WithLine(files, op), Written(t, op), h, done + [op])
  {
    FilesAfterAppend(files, h, done, op, false);
    FilesAfterAppend(files, h, done, op, true);
    TableAfterAppend(h, done, op, false);
    TableAfterAppend(h, done, op, true);
  }

  /** The keys of the item table: one row per ID and per external reference. */
  ghost predicate Keyed(items: Table) {
    && DistinctRefs(items)
    && forall id :: id in items ==> items[id].id == id
  }

  lemma WriteKeepsKeys(t: Tables, op: TxOp)
    requires Keyed(t.items) && !Refused(t, op)
    ensures Keyed(Written(t, op).items)
  {
  }

  /** The first i operations have gone through: what is written since the transaction began. */
  ghost predicate SoFar(t: Tables, f: Files, rules: set<int>, ops: seq<TxOp>, unwritable: set<nat>, i: nat,
                        tables: Tables, files: Files, logged: set<int>) {
    && i <= |ops|
    && (forall k: nat :: k < i ==> GoesThrough(t, ops, unwritable, k))
    && AppendedBy(t, ops, unwritable) == AppendedBy(t, ops, unwritable, i)
    && tables == AllWritten(t, ops[..i]) && Keyed(tables.items) && tables.rules <= logged
    && files == AllAppended(f, ops[..i]) && logged == rules + RulesOf(ops[..i])
  }

  function LoggedBy(logged: set<int>, op: TxOp): set<int> {
    if op.SaveRule? then logged + {op.version} else logged
  }

  /** The next operation goes through, or is the last to write its line. */
  lemma TxStep(t: Tables, f: Files, rules: set<int>, ops: seq<TxOp>, unwritable: set<nat>, i: nat,
               tables: Tables, files: Files, logged: set<int>)
    requires i < |ops| && SoFar(t, f, rules, ops, unwritable, i, tables, files, logged)
    ensures GoesThrough(t, ops, unwritable, i) <==> i !in unwritable && !Refused(tables, ops[i])
    ensures GoesThrough(t, ops, unwritable, i)
            ==> SoFar(t, f, rules, ops, unwritable, i + 1, Written(tables, ops[i]), WithLine(files, ops[i]), LoggedBy(logged, ops[i]))
    ensures !GoesThrough(t, ops, unwritable, i) ==> AppendedBy(t, ops, unwritable) == if i in unwritable then i else i + 1
    ensures WithLine(files, ops[i]) == AllAppended(f, ops[..i + 1]) && LoggedBy(logged, ops[i]) == rules + RulesOf(ops[..i + 1])
  {
    assert ops[..i + 1] == ops[..i] + [ops[i]];
    assert ops[..i + 1][..i] == ops[..i];
    if !Refused(tables, ops[i]) {
      WriteKeepsKeys(tables, ops[i]);
    }
  }

  lemma {:induction false} TxInSync(files: Files, t: Tables, h: seq<Write>, ops: seq<TxOp>, n: nat)
    requires FilesHold(files, h) && t.items == TableOf(h) && n <= |ops|
    ensures InSync(AllAppended(files, ops[..n]), AllWritten(t, ops[..n]), h, ops[..n])
    decreases n
  {
    if n == 0 {
      StartInSync(files, t, h);
    } else {
      var done := ops[..n - 1];
      TxInSync(files, t, h, ops, n - 1);
      assert ops[..n] == done + [ops[n - 1]] && (done + [ops[n - 1]])[..n - 1] == done;
      AppendInSync(AllAppended(files, done), AllWritten(t, done), h, done, ops[n - 1]);
    }
  }

  lemma OneMoreOrderly(files: Files, t: Tables, h: seq<Write>, ops: seq<TxOp>, i: nat)
    requires i < |ops| && InSync(files, t, h, ops[..i]) && Careful(files, t, ops[i])
    requires Orderly(h + LinesOf(ops[..i], false))
    ensures Orderly(h + LinesOf(ops[..i + 1], false))
  {
    assert ops[..i + 1] == ops[..i] + [ops[i]];
    CarefulAppend(files, t, h, ops[..i], ops[i]);
  }

  lemma {:induction false} LinesStayOrderly(files: Files, t: Tables, h: seq<Write>, ops: seq<TxOp>, n: nat)
    requires FilesHold(files, h) && t.items == TableOf(h) && n <= |ops|
    requires Orderly(h) && CarefulTx(files, t, ops)
    ensures Orderly(h + LinesOf(ops[..n], false))
    decreases n
  {
    if n == 0 {
      assert h + [] == h;
    } else {
      TxInSync(files, t, h, ops, n - 1);
      LinesStayOrderly(files, t, h, ops, n - 1);
      OneMoreOrderly(AllAppended(files, ops[..n - 1]), AllWritten(t, ops[..n - 1]), h, ops, n - 1);
    }
  }

  /** Careful operations keep the log in order, however the transaction ends. */
  lemma TxStaysOrderly(files: Files, t: Tables, h: seq<Write>, ops: seq<TxOp>, n: nat)
    requires FilesHold(files, h) && t.items == TableOf(h) && n <= |ops|
    ensures Orderly(h) && CarefulTx(files, t, ops) ==> forall ok :: Orderly(h + LinesOf(ops[..n], ok))
  {
    if Orderly(h) && CarefulTx(files, t, ops) {
      LinesStayOrderly(files, t, h, ops, n);
      LinesDifferByMark(ops[..n]);
      SameLinesReplay(h + LinesOf(ops[..n], false), h + LinesOf(ops[..n], true));
    }
  }

  function ReplayFiles(files: Files, days: seq<int>): Table
    requires forall d :: d in days ==> d in files
  {
    if days == [] then map[]
    else
      var last := days[|days| - 1];
      assert last in days;
      ReplayFiles(files, days[..|days| - 1]) + Collect(files[last])
  }

  lemma {:induction false} FilesReplayTheHistory(files: Files, history: seq<Write>, days: seq<int>)
    requires forall d :: FileRows(files, d) == RowsOn(history, d)
    requires forall d :: d in days ==> d in files
    ensures ReplayFiles(files, days) == Replay(history, days)
  {
    if days != [] {
      var last := days[|days| - 1];
      assert last in days;
      FilesReplayTheHistory(files, history, days[..|days| - 1]);
      assert FileRows(files, last) == files[last];
    }
  }

  lemma AllDaysListed(files: Files, history: seq<Write>, days: seq<int>)
    requires FilesHold(files, history) && forall d :: d in days <==> d in files
    ensures Covers(days, history)
  {
    forall w | w in history
      ensures w.day in days
    {
      LineIsFiled(history, w);
      assert FileRows(files, w.day) != [];
    }
  }

  lemma {:induction false} NewestIsKeyed(history: seq<Write>)
    ensures forall id :: id in Newest(history) ==> Newest(history)[id].id == id
  {
    if history != [] {
      NewestIsKeyed(history[..|history| - 1]);
    }
  }

  /** The replay of an orderly log is its newest lines, and the table of a log whose every
      line counts. */
  lemma RebuiltIsValid(files: Files, history: seq<Write>, items: Table, days: seq<int>)
    requires FilesHold(files, history) && Orderly(history)
    requires Ascending(days) && forall d :: d in days <==> d in files
    requires items == ReplayFiles(files, days)
    ensures items == Newest(history)
    ensures FilesHold(files, Marked(history, true)) && Orderly(Marked(history, true))
    ensures items == TableOf(Marked(history, true))
    ensures forall id :: id in items ==> items[id].id == id
  {
    FilesReplayTheHistory(files, history, days);
    AllDaysListed(files, history, days);
    ReplayFindsNewest(history, days);
    NewestIsKeyed(history);
    MarkedLines(history, true);
    SameLinesReplay(history, Marked(history, true));
    CommittedTable(history);
  }

  class Store {
    var files: Files
    var loggedRules: set<int>
    var tables: Tables
    ghost var history: seq<Write>

    ghost predicate Valid()
      reads this
    {
      && FilesHold(files, history)
      && tables.items == TableOf(history)
      && tables.rules <= loggedRules
      && Keyed(tables.items)
    }

    constructor ()
      ensures Valid()
      ensures files == map[] && tables == Tables(map[], {}) && history == [] && loggedRules == {}
    {
      files, loggedRules, tables, history := map[], {}, Tables(map[], {}), [];
    }

    /** One operation of a transaction: append its line, then write the table. */
    method WriteOne(op: TxOp, writable: bool) returns (ok: bool)
      modifies this`files, this`loggedRules, this`tables
      ensures files == if writable then WithLine(old(files), op) else old(files)
      ensures loggedRules == if writable then LoggedBy(old(loggedRules), op) else old(loggedRules)
      ensures ok <==> writable && !Refused(old(tables), op)
      ensures tables == if ok then Written(old(tables), op) else old(tables)
    {
      if !writable {
        return false;
      }
      if op.SaveRule? {
        loggedRules := loggedRules + {op.version};
      } else {
        files := files[DayOf(op) := (if DayOf(op) in files then files[DayOf(op)] else []) + [op.row]];
      }
      if Refused(tables, op) {
        return false;
      }
      tables := Written(tables, op);
      return true;
    }

    /** The operations of a transaction one after the other, up to the first that fails. */
    method RunOps(ops: seq<TxOp>, unwritable: set<nat>) returns (ok: bool)
      requires Keyed(tables.items) && tables.rules <= loggedRules
      modifies this`files, this`loggedRules, this`tables
      ensures ok <==> forall i: nat :: i < |ops| ==> GoesThrough(old(tables), ops, unwritable, i)
      ensures ok ==> AppendedBy(old(tables), ops, unwritable) == |ops|
      ensures ok ==> tables == AllWritten(old(tables), ops) && Keyed(tables.items) && tables.rules <= loggedRules
      ensures var lines := ops[..AppendedBy(old(tables), ops, unwritable)];
              files == AllAppended(old(files), lines) && loggedRules == old(loggedRules) + RulesOf(lines)
    {
      ghost var t, f, before := tables, files, loggedRules;
      for i := 0 to |ops|
        invariant SoFar(t, f, before, ops, unwritable, i, tables, files, loggedRules)
      {
        TxStep(t, f, before, ops, unwritable, i, tables, files, loggedRules);
        var written := WriteOne(ops[i], i !in unwritable);
        if !written {
          return false;
        }
      }
      assert ops[..|ops|] == ops;
      return true;
    }

    /** Runs the operations in one transaction. unwritable holds the positions whose shard
        append fails; abort says that the caller or the commit reports an error at the end.
        A line once appended stays, whatever becomes of the transaction. */
    method WithTx(ops: seq<TxOp>, unwritable: set<nat>, abort: bool) returns (ok: bool)
      requires Valid()
      modifies this
      ensures Valid()
      ensures ok <==> !abort && forall i: nat :: i < |ops| ==> GoesThrough(old(tables), ops, unwritable, i)
      ensures tables == if ok then AllWritten(old(tables), ops) else old(tables)
      ensures ok ==> AppendedBy(old(tables), ops, unwritable) == |ops|
      ensures var lines := ops[..AppendedBy(old(tables), ops, unwritable)];
              && history == old(history) + LinesOf(lines, ok)
              && files == AllAppended(old(files), lines)
              && loggedRules == old(loggedRules) + RulesOf(lines)
      ensures Orderly(old(history)) && CarefulTx(old(files), old(tables), ops) ==> Orderly(history)
    {
      var snapshot := tables;
      ghost var n := AppendedBy(tables, ops, unwritable);
      TxInSync(files, tables, history, ops, n);
      TxStaysOrderly(files, tables, history, ops, n);
      ok := RunOps(ops, unwritable);
      ok := ok && !abort;
      if !ok {
        tables := snapshot;
      } else {
        assert ops[..n] == ops;
      }
      history := history + LinesOf(ops[..n], ok);
    }

    /** Sorts the listed files by path. */
    method SortFiles(listed: seq<int>) returns (days: seq<int>)
      requires forall i, j :: 0 <= i < j < |listed| ==> listed[i] != listed[j]
      ensures Ascending(days)
      ensures forall d :: d in days <==> d in listed
    {
      days := [];
      for n := 0 to |listed|
        invariant Ascending(days)
        invariant forall d :: d in days <==> d in listed[..n]
      {
        var at := 0;
        while at < |days| && days[at] < listed[n]
          invariant 0 <= at <= |days|
          invariant forall k :: 0 <= k < at ==> days[k] < listed[n]
        {
          at := at + 1;
        }
        assert listed[n] !in listed[..n];
        assert at < |days| ==> days[at] in days;
        ghost var before := days;
        days := days[..at] + [listed[n]] + days[at..];
        assert forall d :: d in days <==> d in before || d == listed[n] by {
          assert before == before[..at] + before[at..];
        }
        assert listed[..n + 1] == listed[..n] + [listed[n]];
      }
      assert listed[..|listed|] == listed;
    }

    /** The index file is gone: a new empty one is opened over the same shard files, whose
        lines no table write stands behind any more. */
    method ReplaceIndex()
      requires Valid()
      modifies this`tables, this`history
      ensures Valid()
      ensures tables == Tables(map[], {}) && history == Marked(old(history), false)
    {
      tables := Tables(map[], {});
      history := Marked(history, false);
      MarkedLines(old(history), false);
      SameLinesReplay(old(history), history);
      UncommittedTable(old(history));
    }

    /** Replays every listed shard and fills the cleared item table. The rule table is not
        cleared. Any refused insert rolls the whole rebuild back. After an accepted rebuild
        every line counts as committed, and the store goes on from there. */
    method RebuildIndex(listed: seq<int>) returns (ok: bool, ghost days: seq<int>)
      requires ListsDays(listed, files)
      modifies this`tables, this`history
      ensures Ascending(days) && forall d :: d in days <==> d in files
      ensures ok <==> DistinctRefs(ReplayFiles(files, days)) && loggedRules !! old(tables).rules
      ensures ok ==> tables == Tables(ReplayFiles(files, days), old(tables).rules + loggedRules)
      ensures !ok ==> tables == old(tables)
      ensures history == if ok then Marked(old(history), true) else old(history)
      ensures old(Valid()) && Orderly(old(history)) ==> Valid() && Orderly(history)
    {
      var order := SortFiles(listed);
      days := order;
      var collected: Table := map[];
      for n := 0 to |order|
        invariant tables == old(tables) && history == old(history)
        invariant collected == ReplayFiles(files, order[..n])
      {
        assert order[n] in order;
        assert order[..n + 1][..n] == order[..n];
        var found := Collected(files[order[n]]);
        collected := collected + found;
      }
      assert order[..|order|] == order;
      var items: Table := map[];
      var todo := collected.Keys;
      while todo != {}
        invariant todo <= collected.Keys
        invariant items.Keys == collected.Keys - todo
        invariant forall id :: id in items ==> items[id] == collected[id]
        invariant DistinctRefs(items)
        invariant tables == old(tables) && history == old(history)
        decreases todo
      {
        var id :| id in todo;
        if RefTaken(items, collected[id].fixed.externalRef) {
          return false, days;
        }
        items := items[id := collected[id]];
        todo := todo - {id};
      }
      assert items == collected;
      if !(loggedRules !! tables.rules) {
        return false, days;
      }
      tables := Tables(items, tables.rules + loggedRules);
      history := Marked(history, true);
      if old(Valid()) && Orderly(old(history)) {
        RebuiltIsValid(files, old(history), items, order);
      }
      return true, days;
    }

    /** The collector's loop over the records of one file. */
    method Collected(rows: seq<Row>) returns (t: Table)
      ensures t == Collect(rows)
    {
      t := map[];
      for n := 0 to |rows|
        invariant t == Collect(rows[..n])
      {
        assert rows[..n + 1][..n] == rows[..n];
        t := t[rows[n].id := rows[n]];
      }
      assert rows[..|rows|] == rows;
    }
  }

  /** In every state the store can reach - rollbacks, lost and rebuilt indexes included - the
      committed lines alone replay to exactly the live items. */
  lemma CommittedLinesAreTheItems(s: Store, days: seq<int>)
    requires s.Valid()
    requires Orderly(Committed(s.history))
    requires Ascending(days) && forall d :: d in days <==> d in s.files
    ensures Replay(Committed(s.history), days) == s.tables.items
  {
    AllDaysListed(s.files, s.history, days);
    CommittedReplayIsTheTable(s.history, days);
  }

  /** In every state the store can reach, a rebuild collects exactly the live items if and
      only if no stray line is left. */
  lemma RebuildCollectsTheLiveItems(s: Store, days: seq<int>)
    requires s.Valid() && Orderly(s.history)
    requires Ascending(days) && forall d :: d in days <==> d in s.files
    ensures ReplayFiles(s.files, days) == s.tables.items <==> NoStrayLine(s.history, s.tables.items)
  {
    FilesReplayTheHistory(s.files, s.history, days);
    AllDaysListed(s.files, s.history, days);
    FullReplayExact(s.history, days);
  }

  lemma SharedReference(history: seq<Write>, a: string, b: string)
    requires Orderly(history) && DistinctRefs(TableOf(history))
    requires a in Newest(history) && b in Newest(history) && a != b
    requires Newest(history)[a].fixed.externalRef == Newest(history)[b].fixed.externalRef
    ensures exists i, j :: Clash(history, i, j)
  {
    var i := NewestLine(history, a);
    var j := NewestLine(history, b);
    if history[i].committed && history[j].committed {
      CommittedLineIsLive(history, i);
      CommittedLineIsLive(history, j);
      assert false;
    }
    assert Clash(history, i, j) || Clash(history, j, i);
  }

  /** In every state the store can reach, a rebuild in place is accepted if and only if the rule
      table is empty and no rolled-back line shares its reference with another item. */
  lemma RebuildIsAcceptedExactly(s: Store, days: seq<int>)
    requires s.Valid() && Orderly(s.history)
    requires Ascending(days) && forall d :: d in days <==> d in s.files
    ensures DistinctRefs(ReplayFiles(s.files, days)) && s.loggedRules !! s.tables.rules
            <==> s.tables.rules == {} && !exists i, j :: Clash(s.history, i, j)
  {
    var items := ReplayFiles(s.files, days);
    RebuiltIsValid(s.files, s.history, items, days);
    if a, b :| a in items && b in items && items[a].fixed.externalRef == items[b].fixed.externalRef && a != b {
      SharedReference(s.history, a, b);
    }
    if i, j :| Clash(s.history, i, j) {
      LoggedIDs(s.history, i);
      LoggedIDs(s.history, j);
    }
  }

  // ---------------------------------------------------------------- concrete runs

  lemma OneOperation(t: Tables, files: Files, op: TxOp)
    ensures AllWritten(t, [op]) == Written(t, op) && AllAppended(files, [op]) == WithLine(files, op)
    ensures (forall i: nat :: i < |[op]| ==> GoesThrough(t, [op], {}, i)) <==> !Refused(t, op)
    ensures [op][..AppendedBy(t, [op], {})] == [op]
    ensures forall logged: set<int> :: logged + RulesOf([op]) == LoggedBy(logged, op)
    ensures forall ok :: LinesOf([op], ok) == if op.SaveRule? then [] else [Write(DayOf(op), op.row, ok)]
  {
    assert [op][..0] == [] && [op][..1] == [op];
    assert GoesThrough(t, [op], {}, 0) <==> !Refused(t, op);
    assert RulesOf([op]) == LoggedBy({}, op);
  }

  /** One operation in a transaction of its own. */
  method Commit(s: Store, op: TxOp, abort: bool) returns (ok: bool)
    requires s.Valid()
    modifies s
    ensures s.Valid() && ok == (!abort && !Refused(old(s.tables), op))
    ensures s.tables == if ok then Written(old(s.tables), op) else old(s.tables)
    ensures s.files == WithLine(old(s.files), op) && s.loggedRules == LoggedBy(old(s.loggedRules), op)
    ensures s.history == old(s.history) + if op.SaveRule? then [] else [Write(DayOf(op), op.row, ok)]
  {
    OneOperation(s.tables, s.files, op);
    ok := s.WithTx([op], {}, abort);
  }

  lemma TwoLines(a: Write, b: Write)
    ensures Newest([a, b]) == map[a.row.id := a.row][b.row.id := b.row]
    ensures a.row.id != b.row.id ==> IsNewestLine([a, b], 0)
    ensures IsNewestLine([a, b], 1)
    ensures (a.row.id == b.row.id ==> a.day <= b.day && a.row.fixed == b.row.fixed) ==> Orderly([a, b])
  {
    assert [a, b][..1] == [a] && [a][..0] == [];
    assert Newest([a]) == map[a.row.id := a.row];
  }

  lemma LineOfItsOwnDay(files: Files, op: TxOp)
    requires !op.SaveRule? && DayOf(op) !in files
    ensures WithLine(files, op) == files[DayOf(op) := [op.row]]
  {
    assert FileRows(files, DayOf(op)) + [op.row] == [op.row];
  }

  method SaveThenRollBack(first: Row, second: Row) returns (s: Store)
    requires first.id == second.id && first.fixed == second.fixed && first.fixed.registeredDay == 1
    ensures fresh(s) && s.Valid()
    ensures s.history == [Write(1, first, true), Write(2, second, false)]
    ensures s.files == map[1 := [first], 2 := [second]]
    ensures s.tables == Tables(map[first.id := first], {}) && s.loggedRules == {}
  {
    s := new Store();
    LineOfItsOwnDay(map[], SaveItem(first));
    var saved := Commit(s, SaveItem(first), false);
    LineOfItsOwnDay(s.files, UpdateItem(second, 2));
    var updated := Commit(s, UpdateItem(second, 2), true);
  }

  lemma LaterLineReplays(files: Files, a: Write, b: Write, days: seq<int>)
    requires a.row.id == b.row.id && a.row.fixed == b.row.fixed && a.day <= b.day
    requires FilesHold(files, [a, b]) && Ascending(days) && forall d :: d in days <==> d in files
    ensures ReplayFiles(files, days) == map[b.row.id := b.row] && DistinctRefs(ReplayFiles(files, days))
  {
    TwoLines(a, b);
    RebuiltIsValid(files, [a, b], ReplayFiles(files, days), days);
  }

  /** An item is saved on day 1, an update of it on day 2 is rolled back, and the rebuild
      takes the update for the item. */
  method RolledBackUpdateComesBack(id: string, ref: string) returns (accepted: bool, before: Table, after: Table)
    ensures accepted && id in before && id in after
    ensures before[id].body == "saved" && after[id].body == "rolled back"
  {
    var first, second := Row(id, Fixed(ref, 1), "saved"), Row(id, Fixed(ref, 1), "rolled back");
    var s := SaveThenRollBack(first, second);
    before := s.tables.items;
    ghost var days;
    accepted, days := s.RebuildIndex([2, 1]);
    LaterLineReplays(s.files, Write(1, first, true), Write(2, second, false), days);
    after := s.tables.items;
  }

  method RollBackThenSave(row: Row, again: Row) returns (s: Store, first: bool, second: bool)
    requires row.id != again.id && row.fixed.registeredDay == 1 && again.fixed.registeredDay == 1
    ensures fresh(s) && s.Valid() && !first && second
    ensures s.history == [Write(1, row, false), Write(1, again, true)]
    ensures s.files.Keys == {1} && s.loggedRules == {}
  {
    s := new Store();
    LineOfItsOwnDay(map[], SaveItem(row));
    first := Commit(s, SaveItem(row), true);
    second := Commit(s, SaveItem(again), false);
  }

  lemma ClashRefuses(files: Files, a: Write, b: Write, days: seq<int>)
    requires a.row.id != b.row.id && a.row.fixed.externalRef == b.row.fixed.externalRef
    requires FilesHold(files, [a, b]) && Ascending(days) && forall d :: d in days <==> d in files
    ensures !DistinctRefs(ReplayFiles(files, days))
  {
    TwoLines(a, b);
    RebuiltIsValid(files, [a, b], ReplayFiles(files, days), days);
    assert a.row.id in Newest([a, b]) && b.row.id in Newest([a, b]);
  }

  /** A registration is rolled back and tried again under a new ID: no rebuild is accepted,
      not even over an empty index. */
  method RetriedRegistrationBlocksRebuild(id: string, other: string, ref: string) returns (first: bool, second: bool, accepted: bool)
    requires id != other
    ensures !first && second && !accepted
  {
    var row, again := Row(id, Fixed(ref, 1), ""), Row(other, Fixed(ref, 1), "");
    var s;
    s, first, second := RollBackThenSave(row, again);
    ghost var days, files := [], s.files;
    s.ReplaceIndex();
    accepted, days := s.RebuildIndex([1]);
    ClashRefuses(files, Write(1, row, false), Write(1, again, true), days);
  }

  /** One rule is stored and nothing else: rebuilding in place is refused; over a new index
      the rebuild is accepted and brings the rule back. */
  method RuleBlocksRebuild(version: int) returns (inPlace: bool, fromEmpty: bool, rules: set<int>)
    ensures !inPlace && fromEmpty && rules == {version}
  {
    var s := new Store();
    var stored := Commit(s, SaveRule(version), false);
    ghost var days;
    inPlace, days := s.RebuildIndex([]);
    s.ReplaceIndex();
    fromEmpty, days := s.RebuildIndex([]);
    rules := s.tables.rules;
  }
}
