/** What a log of item records means: the table its committed part builds, and the
    table a replay of the shard files in path order collects. */
module LogReplay {

  // The columns an UPDATE statement never writes.
  datatype Fixed = Fixed(externalRef: string, registeredDay: int)

  // body stands for every other column of an item row.
  datatype Row = Row(id: string, fixed: Fixed, body: string)

  type Table = map<string, Row>

  // One line appended to the item shard of a day, by a transaction that did or did not commit.
  datatype Write = Write(day: int, row: Row, committed: bool)

  // ---------------------------------------------------------------- the live table

  /** The row the table holds after a write: an existing row keeps its fixed columns. */
  function Upsert(t: Table, row: Row): Table {
    t[row.id := if row.id in t then Row(row.id, t[row.id].fixed, row.body) else row]
  }

  function TableOf(history: seq<Write>): Table {
    if history == [] then map[]
    else
      var w, before := history[|history| - 1], TableOf(history[..|history| - 1]);
      if w.committed then Upsert(before, w.row) else before
  }

  // ---------------------------------------------------------------- the replay

  /** Lines of one shard file, in file order. */
  function RowsOn(history: seq<Write>, day: int): seq<Row> {
    if history == [] then []
    else
      var w, before := history[|history| - 1], RowsOn(history[..|history| - 1], day);
      if w.day == day then before + [w.row] else before
  }

  /** The collector: the last record of an ID wins. */
  function Collect(rows: seq<Row>): Table {
    if rows == [] then map[] else Collect(rows[..|rows| - 1])[rows[|rows| - 1].id := rows[|rows| - 1]]
  }

  /** The collector run over the files of the given days, in that order. */
  function Replay(history: seq<Write>, days: seq<int>): Table {
    if days == [] then map[]
    else Replay(history, days[..|days| - 1]) + Collect(RowsOn(history, days[|days| - 1]))
  }

  ghost predicate Ascending(days: seq<int>) {
    forall i, j :: 0 <= i < j < |days| ==> days[i] < days[j]
  }

  ghost predicate Covers(days: seq<int>, history: seq<Write>) {
    forall w :: w in history ==> w.day in days
  }

  /** The dates an item is written under never go back. */
  ghost predicate DatesOrdered(history: seq<Write>) {
    forall i, j :: 0 <= i < j < |history| && history[i].row.id == history[j].row.id ==> history[i].day <= history[j].day
  }

  /** Every write of an item repeats the columns an update cannot change. */
  ghost predicate FixedKept(history: seq<Write>) {
    forall i, j :: 0 <= i < j < |history| && history[i].row.id == history[j].row.id ==> history[i].row.fixed == history[j].row.fixed
  }

  ghost predicate Orderly(history: seq<Write>) {
    DatesOrdered(history) && FixedKept(history)
  }

  /** A line for an item goes in order after the others if it is dated no earlier and
      repeats their fixed columns. */
  lemma OrderlyAppend(history: seq<Write>, w: Write)
    requires Orderly(history)
    requires forall x :: x in history && x.row.id == w.row.id ==> x.day <= w.day && x.row.fixed == w.row.fixed
    ensures Orderly(history + [w])
  {
    assert forall i :: 0 <= i < |history| ==> (history + [w])[i] == history[i] && history[i] in history;
  }

  /** The lines of committed transactions only. */
  function Committed(history: seq<Write>): seq<Write> {
    if history == [] then []
    else
      var w, before := history[|history| - 1], Committed(history[..|history| - 1]);
      if w.committed then before + [w] else before
  }

  /** For every ID the row of its newest line, whoever wrote it. */
  function Newest(history: seq<Write>): Table {
    if history == [] then map[]
    else Newest(history[..|history| - 1])[history[|history| - 1].row.id := history[|history| - 1].row]
  }

  lemma {:induction false} CollectedIDs(history: seq<Write>, day: int, id: string)
    requires id in Collect(RowsOn(history, day))
    ensures exists w :: w in history && w.row.id == id && w.day == day
  {
    var n := |history| - 1;
    var w := history[n];
    assert w in history;
    if w.day == day && w.row.id == id {
    } else {
      var before := RowsOn(history[..n], day);
      if w.day == day {
        assert (before + [w.row])[..|before|] == before;
      }
      CollectedIDs(history[..n], day, id);
      var x :| x in history[..n] && x.row.id == id && x.day == day;
      assert x in history;
    }
  }

  lemma CollectOfAppend(history: seq<Write>, w: Write, day: int)
    ensures Collect(RowsOn(history + [w], day))
            == if w.day == day then Collect(RowsOn(history, day))[w.row.id := w.row] else Collect(RowsOn(history, day))
  {
    assert (history + [w])[..|history|] == history;
    assert (RowsOn(history, day) + [w.row])[..|RowsOn(history, day)|] == RowsOn(history, day);
  }

  lemma OneMoreRow(before: Table, found: Table, row: Row)
    ensures before + found[row.id := row] == (before + found)[row.id := row]
    ensures row.id !in found ==> before[row.id := row] + found == (before + found)[row.id := row]
    ensures before[row.id := row] + found[row.id := row] == (before + found)[row.id := row]
  {
  }

  /** The last file, if it is not the line's own, is later and has no line of its ID, or the
      line is in none of the files. */
  lemma LaterFileLacks(history: seq<Write>, w: Write, days: seq<int>)
    requires Ascending(days) && days != [] && days[|days| - 1] != w.day
    requires forall x :: x in history && x.row.id == w.row.id ==> x.day <= w.day
    ensures w.day in days ==> w.row.id !in Collect(RowsOn(history, days[|days| - 1]))
  {
    if w.day in days && w.row.id in Collect(RowsOn(history, days[|days| - 1])) {
      CollectedIDs(history, days[|days| - 1], w.row.id);
      assert false;
    }
  }

  /** One more line for an ID, dated no earlier than its others, is the line the
      replay ends up with for that ID; nothing else moves. */
  lemma {:induction false} ReplayOfAppend(history: seq<Write>, w: Write, days: seq<int>)
    requires Ascending(days)
    requires forall x :: x in history && x.row.id == w.row.id ==> x.day <= w.day
    ensures Replay(history + [w], days)
            == if w.day in days then Replay(history, days)[w.row.id := w.row] else Replay(history, days)
    decreases |days|
  {
    if days != [] {
      var n := |days| - 1;
      assert days == days[..n] + [days[n]];
      ReplayOfAppend(history, w, days[..n]);
      CollectOfAppend(history, w, days[n]);
      if days[n] != w.day {
        LaterFileLacks(history, w, days);
      }
      OneMoreRow(Replay(history, days[..n]), Collect(RowsOn(history, days[n])), w.row);
    }
  }

  lemma {:induction false} EmptyReplay(days: seq<int>)
    ensures Replay([], days) == map[]
  {
    if days != [] {
      EmptyReplay(days[..|days| - 1]);
    }
  }

  /** Replaying the files in date order finds the newest line of every ID. */
  lemma {:induction false} ReplayFindsNewest(history: seq<Write>, days: seq<int>)
    requires Ascending(days) && Covers(days, history) && DatesOrdered(history)
    ensures Replay(history, days) == Newest(history)
    decreases |history|
  {
    if history == [] {
      EmptyReplay(days);
    } else {
      var n := |history| - 1;
      assert history == history[..n] + [history[n]];
      forall w | w in history[..n]
        ensures w in history
      {
      }
      ReplayFindsNewest(history[..n], days);
      ReplayOfAppend(history[..n], history[n], days);
      assert history[n] in history;
    }
  }

  lemma {:induction false} NewestIsLogged(history: seq<Write>, id: string)
    requires id in Newest(history)
    ensures exists i :: 0 <= i < |history| && history[i].row == Newest(history)[id] && history[i].row.id == id
  {
    var n := |history| - 1;
    if history[n].row.id != id {
      NewestIsLogged(history[..n], id);
      var i :| 0 <= i < n && history[..n][i].row == Newest(history[..n])[id] && history[..n][i].row.id == id;
      assert history[i].row == Newest(history)[id];
    }
  }

  lemma {:induction false} CommittedPart(history: seq<Write>)
    ensures forall w :: w in Committed(history) ==> w in history && w.committed
    ensures TableOf(Committed(history)) == TableOf(history)
    ensures DatesOrdered(history) ==> DatesOrdered(Committed(history))
    ensures FixedKept(history) ==> FixedKept(Committed(history))
    decreases |history|
  {
    if history != [] {
      var n := |history| - 1;
      var before := Committed(history[..n]);
      CommittedPart(history[..n]);
      if history[n].committed {
        assert (before + [history[n]])[..|before|] == before;
        forall k | 0 <= k < |before|
          ensures DatesOrdered(history) && before[k].row.id == history[n].row.id ==> before[k].day <= history[n].day
          ensures FixedKept(history) && before[k].row.id == history[n].row.id ==> before[k].row.fixed == history[n].row.fixed
        {
          assert before[k] in history[..n];
        }
      }
    }
  }

  /** A log in which everything committed builds the table of its newest rows. */
  lemma {:induction false} CommittedTableIsNewest(history: seq<Write>)
    requires FixedKept(history)
    requires forall w :: w in history ==> w.committed
    ensures TableOf(history) == Newest(history)
    decreases |history|
  {
    if history != [] {
      var n := |history| - 1;
      forall w | w in history[..n]
        ensures w in history
      {
      }
      CommittedTableIsNewest(history[..n]);
      assert history[n] in history;
      var id := history[n].row.id;
      if id in Newest(history[..n]) {
        NewestIsLogged(history[..n], id);
      }
    }
  }

  /** The log refines the table: the committed lines, replayed in path order with the
      last record per ID winning, are the live rows - whatever was rolled back. */
  lemma CommittedReplayIsTheTable(history: seq<Write>, days: seq<int>)
    requires Ascending(days) && Covers(days, history)
    requires DatesOrdered(Committed(history)) && FixedKept(Committed(history))
    ensures Replay(Committed(history), days) == TableOf(history)
  {
    CommittedPart(history);
    ReplayFindsNewest(Committed(history), days);
    CommittedTableIsNewest(Committed(history));
  }

  /** No later line of the same ID follows line i. */
  ghost predicate IsNewestLine(history: seq<Write>, i: nat) {
    i < |history| && forall j :: i < j < |history| ==> history[j].row.id != history[i].row.id
  }

  lemma {:induction false} NewestLine(history: seq<Write>, id: string) returns (i: nat)
    requires id in Newest(history)
    ensures IsNewestLine(history, i) && history[i].row.id == id && Newest(history)[id] == history[i].row
  {
    var n := |history| - 1;
    if history[n].row.id == id {
      i := n;
    } else {
      i := NewestLine(history[..n], id);
      forall j | i < j < |history|
        ensures history[j].row.id != id
      {
        if j < n {
          assert history[..n][j].row.id != history[..n][i].row.id;
        }
      }
    }
  }

  lemma {:induction false} LoggedIDs(history: seq<Write>, i: nat)
    requires i < |history|
    ensures history[i].row.id in Newest(history)
    ensures IsNewestLine(history, i) ==> Newest(history)[history[i].row.id] == history[i].row
  {
    var n := |history| - 1;
    if i < n {
      LoggedIDs(history[..n], i);
      assert history[..n][i] == history[i];
      if IsNewestLine(history, i) {
        assert IsNewestLine(history[..n], i);
      }
    }
  }

  lemma {:induction false} CommittedLineIsLive(history: seq<Write>, i: nat)
    requires FixedKept(history)
    requires IsNewestLine(history, i) && history[i].committed
    ensures history[i].row.id in TableOf(history) && TableOf(history)[history[i].row.id] == history[i].row
    decreases |history|
  {
    var n := |history| - 1;
    if i < n {
      assert history[..n][i] == history[i];
      CommittedLineIsLive(history[..n], i);
    } else {
      var id := history[n].row.id;
      if id in TableOf(history[..n]) {
        FixedColumnsLive(history[..n], id);
      }
    }
  }

  lemma {:induction false} FixedColumnsLive(history: seq<Write>, id: string)
    requires FixedKept(history) && id in TableOf(history)
    ensures TableOf(history)[id].id == id
    ensures exists i :: 0 <= i < |history| && history[i].row.id == id && history[i].row.fixed == TableOf(history)[id].fixed
    decreases |history|
  {
    var n := |history| - 1;
    if id in TableOf(history[..n]) {
      FixedColumnsLive(history[..n], id);
      var i :| 0 <= i < n && history[..n][i].row.id == id && history[..n][i].row.fixed == TableOf(history[..n])[id].fixed;
      assert history[i].row.fixed == TableOf(history)[id].fixed;
    } else {
      assert history[n].row.id == id;
    }
  }

  lemma {:induction false} TableIDsAreLogged(history: seq<Write>)
    ensures TableOf(history).Keys <= Newest(history).Keys
    decreases |history|
  {
    if history != [] {
      TableIDsAreLogged(history[..|history| - 1]);
    }
  }

  /** No line left behind by a rolled-back transaction is both the newest of its item
      and different from the live row. */
  ghost predicate NoStrayLine(history: seq<Write>, live: Table) {
    forall i: nat :: IsNewestLine(history, i) && !history[i].committed ==>
      history[i].row.id in live && live[history[i].row.id] == history[i].row
  }

  /** The replay of everything on disk equals the live table exactly when the rolled-back
      transactions left no stray line. */
  lemma FullReplayExact(history: seq<Write>, days: seq<int>)
    requires Ascending(days) && Covers(days, history)
    requires DatesOrdered(history) && FixedKept(history)
    ensures Replay(history, days) == TableOf(history) <==> NoStrayLine(history, TableOf(history))
  {
    ReplayFindsNewest(history, days);
    TableIDsAreLogged(history);
    if NoStrayLine(history, TableOf(history)) {
      forall id | id in Newest(history)
        ensures id in TableOf(history) && TableOf(history)[id] == Newest(history)[id]
      {
        var i := NewestLine(history, id);
        if history[i].committed {
          CommittedLineIsLive(history, i);
        }
      }
    }
    forall i: nat | IsNewestLine(history, i)
      ensures history[i].row.id in Newest(history) && Newest(history)[history[i].row.id] == history[i].row
    {
      LoggedIDs(history, i);
    }
  }

  // ---------------------------------------------------------------- who committed does not matter to the files

  /** The same lines in the same files; which of them committed may differ. */
  ghost predicate SameLines(h: seq<Write>, k: seq<Write>) {
    |h| == |k| && forall i :: 0 <= i < |h| ==> h[i].day == k[i].day && h[i].row == k[i].row
  }

  lemma {:induction false} SameLinesReplay(h: seq<Write>, k: seq<Write>)
    requires SameLines(h, k)
    ensures Newest(h) == Newest(k)
    ensures forall d :: RowsOn(h, d) == RowsOn(k, d)
    ensures DatesOrdered(h) ==> DatesOrdered(k)
    ensures FixedKept(h) ==> FixedKept(k)
    decreases |h|
  {
    if h != [] {
      SameLinesReplay(h[..|h| - 1], k[..|k| - 1]);
    }
  }

  /** The lines of a history as if all of them, or none, had been committed. */
  function Marked(history: seq<Write>, committed: bool): seq<Write> {
    if history == [] then []
    else Marked(history[..|history| - 1], committed) + [history[|history| - 1].(committed := committed)]
  }

  lemma {:induction false} MarkedLines(history: seq<Write>, committed: bool)
    ensures SameLines(history, Marked(history, committed))
    ensures forall w :: w in Marked(history, committed) ==> w.committed == committed
    decreases |history|
  {
    if history != [] {
      MarkedLines(history[..|history| - 1], committed);
    }
  }

  /** If no line counts the table is empty. */
  lemma {:induction false} UncommittedTable(history: seq<Write>)
    ensures TableOf(Marked(history, false)) == map[]
    decreases |history|
  {
    if history != [] {
      var before := Marked(history[..|history| - 1], false);
      UncommittedTable(history[..|history| - 1]);
      assert Marked(history, false)[..|before|] == before;
    }
  }

  /** If every line counts the table is the replay. */
  lemma CommittedTable(history: seq<Write>)
    requires FixedKept(history)
    ensures TableOf(Marked(history, true)) == Newest(history)
  {
    MarkedLines(history, true);
    SameLinesReplay(history, Marked(history, true));
    CommittedTableIsNewest(Marked(history, true));
  }

  /** Two items share a reference in the newest lines, so one of these lines was rolled back. */
  ghost predicate Clash(history: seq<Write>, i: nat, j: nat) {
    && IsNewestLine(history, i) && IsNewestLine(history, j)
    && history[i].row.id != history[j].row.id
    && history[i].row.fixed.externalRef == history[j].row.fixed.externalRef
    && !history[i].committed
  }
}
