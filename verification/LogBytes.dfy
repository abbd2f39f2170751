/** From the bytes of the shard files to the rows a rebuild collects from them. */
module LogBytes {
  import opened Common
  import opened ShardLines
  import opened LogReplay
  import ShardFiles
  import LogStore
  import opened TimeText

  type ShardPath = ShardFiles.ShardPath
  type Disk = ShardFiles.Files

  // The serialisation of an item record, and its parser, which fails on a foreign line.
  datatype Codec = Codec(encode: Row -> Bytes, decode: Bytes -> Option<Row>)

  /** The record of a row parses back to it and fits a shard line. */
  predicate Survives(c: Codec, row: Row) {
    Clean(c.encode(row)) && c.decode(c.encode(row)) == Some(row)
  }

  function EncodeRows(c: Codec, rows: seq<Row>): seq<Bytes> {
    if rows == [] then [] else EncodeRows(c, rows[..|rows| - 1]) + [c.encode(rows[|rows| - 1])]
  }

  // ---------------------------------------------------------------- the collector

  /** The collector over raw records: a record that does not parse is ignored. */
  function CollectRecords(c: Codec, records: seq<Bytes>): Table {
    if records == [] then map[]
    else
      var before, row := CollectRecords(c, records[..|records| - 1]), c.decode(records[|records| - 1]);
      if row.None? then before else before[row.value.id := row.value]
  }

  /** The rows of the records that parse, in order. */
  function Parsed(c: Codec, records: seq<Bytes>): seq<Row> {
    if records == [] then []
    else
      var before, row := Parsed(c, records[..|records| - 1]), c.decode(records[|records| - 1]);
      if row.Some? then before + [row.value] else before
  }

  /** Foreign records change nothing: the collector gets what the others say, the last per ID. */
  lemma {:induction false} ForeignRecordsAreIgnored(c: Codec, records: seq<Bytes>)
    ensures CollectRecords(c, records) == Collect(Parsed(c, records))
  {
    if records != [] {
      ForeignRecordsAreIgnored(c, records[..|records| - 1]);
    }
  }

  /** A file that cannot be scanned is skipped as a whole. */
  function CollectFile(c: Codec, b: Bytes): Table {
    match Scan(b)
    case Records(rs) => CollectRecords(c, rs)
    case TooLong => map[]
  }

  /** The items found in the listed files, file by file. */
  function CollectPaths(c: Codec, disk: Disk, paths: seq<ShardPath>): Table {
    if paths == [] then map[]
    else
      var p, before := paths[|paths| - 1], CollectPaths(c, disk, paths[..|paths| - 1]);
      if p.entity == "items" then before + CollectFile(c, ShardFiles.Content(disk, p)) else before
  }

  predicate Readable(disk: Disk, p: ShardPath) {
    p in disk && Scan(disk[p]).Records?
  }

  function Unreadable(disk: Disk, paths: seq<ShardPath>): seq<ShardPath> {
    if paths == [] then []
    else
      var p, before := paths[|paths| - 1], Unreadable(disk, paths[..|paths| - 1]);
      if Readable(disk, p) then before else before + [p]
  }

  /** A file is reported if and only if it is missing or some record in it fills the buffer. */
  lemma {:induction false} ReportedExactly(disk: Disk, paths: seq<ShardPath>, p: ShardPath)
    ensures p in Unreadable(disk, paths) <==> p in paths && (p !in disk || Scan(disk[p]) == TooLong)
    ensures |Unreadable(disk, paths)| <= |paths|
  {
    if paths != [] {
      assert paths == paths[..|paths| - 1] + [paths[|paths| - 1]];
      ReportedExactly(disk, paths[..|paths| - 1], p);
    }
  }

  datatype Report = Report(indexed: nat, skipped: nat, corrupted: seq<ShardPath>)

  method AddRecords(c: Codec, collected: Table, records: seq<Bytes>) returns (items: Table)
    ensures items == collected + CollectRecords(c, records)
  {
    items := collected;
    for i := 0 to |records|
      invariant items == collected + CollectRecords(c, records[..i])
    {
      assert records[..i + 1][..i] == records[..i];
      var row := c.decode(records[i]);
      if row.Some? {
        items := items[row.value.id := row.value];
      }
    }
    assert records[..|records|] == records;
  }

  /** The first half of a rebuild: reads every listed file, skips those it cannot read and
      the records it cannot parse. */
  method CollectAll(c: Codec, reader: ShardFiles.Reader, disk: Disk, paths: seq<ShardPath>) returns (items: Table, report: Report)
    ensures items == CollectPaths(c, disk, paths)
    ensures report.corrupted == Unreadable(disk, paths)
    ensures report.skipped == |report.corrupted| && report.indexed + report.skipped == |paths|
  {
    items, report := map[], Report(0, 0, []);
    for i := 0 to |paths|
      invariant items == CollectPaths(c, disk, paths[..i])
      invariant report.corrupted == Unreadable(disk, paths[..i])
      invariant report.skipped == |report.corrupted| && report.indexed + report.skipped == i
    {
      assert paths[..i + 1][..i] == paths[..i];
      var records := reader.ReadAll(disk, paths[i]);
      if records.Err? {
        report := report.(skipped := report.skipped + 1, corrupted := report.corrupted + [paths[i]]);
        continue;
      }
      if paths[i].entity == "items" {
        items := AddRecords(c, items, records.value);
      }
      report := report.(indexed := report.indexed + 1);
    }
    assert paths[..|paths|] == paths;
  }

  // ---------------------------------------------------------------- records carry rows

  lemma {:induction false} RecordsCarryRows(c: Codec, rows: seq<Row>)
    requires forall r :: r in rows ==> Survives(c, r)
    ensures CollectRecords(c, EncodeRows(c, rows)) == Collect(rows)
    ensures forall b :: b in EncodeRows(c, rows) ==> Clean(b)
  {
    if rows != [] {
      var n := |rows| - 1;
      RecordsCarryRows(c, rows[..n]);
      var before := EncodeRows(c, rows[..n]);
      assert EncodeRows(c, rows)[..|before|] == before;
      assert Survives(c, rows[n]);
    }
  }

  lemma FileCarriesRows(c: Codec, rows: seq<Row>)
    requires forall r :: r in rows ==> Survives(c, r)
    ensures CollectFile(c, Encode(EncodeRows(c, rows))) == Collect(rows)
    ensures Scan(Encode(EncodeRows(c, rows))).Records?
  {
    RecordsCarryRows(c, rows);
    CleanRoundTrip(EncodeRows(c, rows));
  }

  lemma {:induction false} EncodedRow(c: Codec, rows: seq<Row>, row: Row)
    requires row in rows
    ensures c.encode(row) in EncodeRows(c, rows)
  {
    var n := |rows| - 1;
    if row != rows[n] {
      EncodedRow(c, rows[..n], row);
    }
  }

  /** One record too long for the scanner, which the writer accepts, hides its whole file. */
  lemma LongRecordHidesItsFile(c: Codec, rows: seq<Row>, row: Row)
    requires row in rows && |c.encode(row)| >= MAX_TOKEN
    requires forall b :: b in EncodeRows(c, rows) ==> NEWLINE !in b
    ensures CollectFile(c, Encode(EncodeRows(c, rows))) == map[]
    ensures Scan(Encode(EncodeRows(c, rows))).TooLong?
  {
    EncodedRow(c, rows, row);
    TooLongExactly(EncodeRows(c, rows));
  }

  // ---------------------------------------------------------------- the disk mirrors the store

  function ItemShard(date: int -> string, day: int): ShardPath {
    ShardFiles.ShardPath("items", date(day), 0)
  }

  /** The item shards on disk hold the encoded rows of the store's files, and there are no
      others. date names a day. */
  ghost predicate Mirrors(c: Codec, date: int -> string, disk: Disk, files: LogStore.Files) {
    && (forall d :: d in files ==> ItemShard(date, d) in disk && disk[ItemShard(date, d)] == Encode(EncodeRows(c, files[d])))
    && forall p: ShardPath :: p in disk && p.entity == "items" ==> exists d :: d in files && p == ItemShard(date, d)
  }

  ghost predicate DistinctDates(date: int -> string, days: set<int>) {
    forall d, e :: d in days && e in days && date(d) == date(e) ==> d == e
  }

  /** The line one operation puts on disk; an operation that is not on an item writes to the
      shards of another type. */
  ghost predicate IsLineOf(c: Codec, date: int -> string, op: LogStore.TxOp, a: ShardFiles.Appended) {
    if op.SaveRule? then a.entity != "items"
    else a.entity == "items" && a.date == date(LogStore.DayOf(op)) && a.data == c.encode(op.row)
  }

  lemma EncodeOneMore(c: Codec, rows: seq<Row>, row: Row)
    ensures Encode(EncodeRows(c, rows + [row])) == Encode(EncodeRows(c, rows)) + Line(c.encode(row))
  {
    assert (rows + [row])[..|rows|] == rows;
    var before := EncodeRows(c, rows);
    assert (before + [c.encode(row)])[..|before|] == before;
  }

  lemma OnDiskIsFiled(c: Codec, date: int -> string, disk: Disk, files: LogStore.Files, day: int)
    requires DistinctDates(date, files.Keys + {day}) && Mirrors(c, date, disk, files)
    ensures ItemShard(date, day) in disk <==> day in files
  {
    if ItemShard(date, day) in disk {
      var e :| e in files && ItemShard(date, day) == ItemShard(date, e);
      assert e == day;
    }
  }

  lemma ItemLineMirrors(c: Codec, date: int -> string, disk: Disk, files: LogStore.Files, day: int, row: Row)
    requires DistinctDates(date, files.Keys + {day}) && Mirrors(c, date, disk, files)
    ensures var p := ItemShard(date, day);
            Mirrors(c, date, disk[p := ShardFiles.Content(disk, p) + Line(c.encode(row))], files[day := LogStore.FileRows(files, day) + [row]])
  {
    var p := ItemShard(date, day);
    var after, filesAfter := disk[p := ShardFiles.Content(disk, p) + Line(c.encode(row))], files[day := LogStore.FileRows(files, day) + [row]];
    OnDiskIsFiled(c, date, disk, files, day);
    EncodeOneMore(c, LogStore.FileRows(files, day), row);
    assert Encode(EncodeRows(c, [])) == [];
    forall d | d in filesAfter
      ensures ItemShard(date, d) in after && after[ItemShard(date, d)] == Encode(EncodeRows(c, filesAfter[d]))
    {
    }
    forall q: ShardPath | q in after && q.entity == "items"
      ensures exists d :: d in filesAfter && q == ItemShard(date, d)
    {
      if q == p {
        assert day in filesAfter;
      } else {
        var d :| d in files && q == ItemShard(date, d);
        assert d in filesAfter;
      }
    }
  }

  /** Without rotation an append keeps the disk in step with the store. */
  lemma AppendMirrors(c: Codec, date: int -> string, before: Disk, after: Disk, limit: int, files: LogStore.Files,
                      op: LogStore.TxOp, a: ShardFiles.Appended)
    requires limit <= 0 && Mirrors(c, date, before, files) && IsLineOf(c, date, op, a)
    requires !op.SaveRule? ==> DistinctDates(date, files.Keys + {LogStore.DayOf(op)})
    requires ShardFiles.AppendStep(before, after, limit, a.entity, a.date, a.data, a.loc)
    ensures Mirrors(c, date, after, LogStore.WithLine(files, op))
  {
    if !op.SaveRule? {
      assert a.loc.path == ItemShard(date, LogStore.DayOf(op));
      ItemLineMirrors(c, date, before, files, LogStore.DayOf(op), op.row);
    }
  }

  lemma {:induction false} LoggedDays(ops: seq<LogStore.TxOp>, days: set<int>)
    requires forall op :: op in ops && !op.SaveRule? ==> LogStore.DayOf(op) in days
    ensures LogStore.AllAppended(map[], ops).Keys <= days
  {
    if ops != [] {
      assert ops == ops[..|ops| - 1] + [ops[|ops| - 1]];
      LoggedDays(ops[..|ops| - 1], days);
    }
  }

  /** From an empty directory on, the disk mirrors what the operations logged. */
  lemma {:induction false} RunMirrors(c: Codec, date: int -> string, states: seq<Disk>, log: seq<ShardFiles.Appended>, limit: int,
                                      ops: seq<LogStore.TxOp>, days: set<int>)
    requires limit <= 0 && ShardFiles.IsFreshRun(states, log, limit)
    requires |ops| == |log| && forall i :: 0 <= i < |log| ==> IsLineOf(c, date, ops[i], log[i])
    requires DistinctDates(date, days) && forall op :: op in ops && !op.SaveRule? ==> LogStore.DayOf(op) in days
    ensures Mirrors(c, date, states[|log|], LogStore.AllAppended(map[], ops))
    decreases |log|
  {
    if log != [] {
      var n := |log| - 1;
      assert ops == ops[..n] + [ops[n]];
      ShardFiles.RunPrefix(states, log, limit, n);
      RunMirrors(c, date, states[..n + 1], log[..n], limit, ops[..n], days);
      LoggedDays(ops[..n], days);
      AppendMirrors(c, date, states[n], states[n + 1], limit, LogStore.AllAppended(map[], ops[..n]), ops[n], log[n]);
    }
  }

  // ---------------------------------------------------------------- the listed paths in order

  /** Path of a shard file below the data directory root: the month of its date is a directory. */
  function PathName(root: string, p: ShardPath): string {
    root + "shards/" + p.entity + "/" + ((if |p.date| < 7 then p.date else p.date[..7]) + ("/" + ShardFiles.FileName(p)))
  }

  /** The days are in the calendar, each with the date of its moment, in order of dates. */
  ghost predicate Dated(date: int -> string, moment: int -> Moment, days: set<int>) {
    && (forall d :: d in days ==> InRange(moment(d)) && date(d) == DateText(moment(d)))
    && forall d, e :: d in days && e in days ==> (d < e <==> DateNumber(moment(d)) < DateNumber(moment(e)))
  }

  /** What the scan and the sort make of the directory: all item shards, in order of their names. */
  ghost predicate SortedListing(root: string, disk: Disk, paths: seq<ShardPath>) {
    && (forall p: ShardPath :: p.entity == "items" ==> (p in paths <==> p in disk))
    && InNameOrder(root, paths)
  }

  lemma ItemPathName(root: string, date: int -> string, moment: int -> Moment, d: int)
    requires InRange(moment(d)) && date(d) == DateText(moment(d))
    ensures PathName(root, ItemShard(date, d)) == ShardFile(root + "shards/" + "items" + "/", moment(d))
  {
    var t := moment(d);
    MonthOrder(t, t);
    assert DateText(t) == MonthText(t) + ("-" + Two(t.day));
    DateOrder(t, t);
    assert DateText(t)[..7] == MonthText(t);
  }

  lemma EarlierPath(root: string, date: int -> string, moment: int -> Moment, days: set<int>, d: int, e: int)
    requires Dated(date, moment, days) && d in days && e in days
    requires TextLess(PathName(root, ItemShard(date, d)), PathName(root, ItemShard(date, e)))
    ensures d < e
  {
    ItemPathName(root, date, moment, d);
    ItemPathName(root, date, moment, e);
    PathOrderIsDateOrder(root + "shards/" + "items" + "/", moment(d), moment(e));
  }

  // ---------------------------------------------------------------- a rebuild from bytes

  function ItemPaths(paths: seq<ShardPath>): seq<ShardPath> {
    if paths == [] then []
    else
      var p, before := paths[|paths| - 1], ItemPaths(paths[..|paths| - 1]);
      if p.entity == "items" then before + [p] else before
  }

  function PathsOf(date: int -> string, days: seq<int>): seq<ShardPath> {
    if days == [] then [] else PathsOf(date, days[..|days| - 1]) + [ItemShard(date, days[|days| - 1])]
  }

  lemma {:induction false} OnlyItemPathsCount(c: Codec, disk: Disk, paths: seq<ShardPath>)
    ensures CollectPaths(c, disk, paths) == CollectPaths(c, disk, ItemPaths(paths))
  {
    if paths != [] {
      var before := ItemPaths(paths[..|paths| - 1]);
      OnlyItemPathsCount(c, disk, paths[..|paths| - 1]);
      assert forall p :: (before + [p])[..|before|] == before;
    }
  }

  lemma ShardCarriesRows(c: Codec, date: int -> string, disk: Disk, files: LogStore.Files, day: int)
    requires Mirrors(c, date, disk, files) && day in files
    requires forall d, r :: d in files && r in files[d] ==> Survives(c, r)
    ensures CollectFile(c, ShardFiles.Content(disk, ItemShard(date, day))) == Collect(files[day])
    ensures Readable(disk, ItemShard(date, day))
  {
    FileCarriesRows(c, files[day]);
  }

  lemma {:induction false} BytesReplayTheFiles(c: Codec, date: int -> string, disk: Disk, files: LogStore.Files, days: seq<int>)
    requires forall d :: d in days ==> d in files && CollectFile(c, ShardFiles.Content(disk, ItemShard(date, d))) == Collect(files[d])
    ensures CollectPaths(c, disk, PathsOf(date, days)) == LogStore.ReplayFiles(files, days)
  {
    if days != [] {
      var last, before := days[|days| - 1], PathsOf(date, days[..|days| - 1]);
      assert last in days;
      BytesReplayTheFiles(c, date, disk, files, days[..|days| - 1]);
      assert PathsOf(date, days)[..|before|] == before;
    }
  }

  ghost predicate InNameOrder(root: string, paths: seq<ShardPath>) {
    forall i, j :: 0 <= i < j < |paths| ==> TextLess(PathName(root, paths[i]), PathName(root, paths[j]))
  }

  lemma LastIsLatest(root: string, date: int -> string, moment: int -> Moment, days: set<int>, paths: seq<ShardPath>, d: int, e: int)
    requires Dated(date, moment, days) && d in days && e in days
    requires InNameOrder(root, paths) && paths != []
    requires ItemShard(date, d) in paths[..|paths| - 1] && ItemShard(date, e) == paths[|paths| - 1]
    ensures d < e
  {
    var n := |paths| - 1;
    var i :| 0 <= i < n && paths[..n][i] == ItemShard(date, d);
    assert paths[i] == ItemShard(date, d);
    EarlierPath(root, date, moment, days, d, e);
  }

  /** Sorted by name, the item shards of a listing are in the order of their days. */
  lemma {:induction false} SortedItems(root: string, date: int -> string, moment: int -> Moment, days: set<int>, paths: seq<ShardPath>)
    returns (listed: seq<int>)
    requires Dated(date, moment, days) && InNameOrder(root, paths)
    requires forall p :: p in paths && p.entity == "items" ==> exists d :: d in days && p == ItemShard(date, d)
    ensures Ascending(listed) && ItemPaths(paths) == PathsOf(date, listed)
    ensures forall d :: d in listed ==> d in days && ItemShard(date, d) in paths
    ensures forall p :: p in paths && p.entity == "items" ==> p in PathsOf(date, listed)
  {
    listed := [];
    if paths != [] {
      var n := |paths| - 1;
      assert paths == paths[..n] + [paths[n]];
      assert InNameOrder(root, paths[..n]);
      var before := SortedItems(root, date, moment, days, paths[..n]);
      listed := before;
      if paths[n].entity == "items" {
        var d :| d in days && paths[n] == ItemShard(date, d);
        forall x | x in before
          ensures x < d
        {
          LastIsLatest(root, date, moment, days, paths, x, d);
        }
        listed := OneMoreDay(date, before, d);
      }
    }
  }

  lemma OneMoreDay(date: int -> string, before: seq<int>, d: int) returns (listed: seq<int>)
    requires Ascending(before) && forall x :: x in before ==> x < d
    ensures listed == before + [d] && Ascending(listed) && PathsOf(date, listed) == PathsOf(date, before) + [ItemShard(date, d)]
  {
    listed := before + [d];
    assert listed[..|before|] == before;
    assert forall k :: 0 <= k < |before| ==> listed[k] == before[k] && before[k] in before;
  }

  lemma {:induction false} PathOfDay(date: int -> string, days: seq<int>, p: ShardPath)
    requires p in PathsOf(date, days)
    ensures exists d :: d in days && p == ItemShard(date, d)
  {
    var n := |days| - 1;
    assert days == days[..n] + [days[n]];
    if p != ItemShard(date, days[n]) {
      PathOfDay(date, days[..n], p);
    }
  }

  lemma DatesTell(date: int -> string, moment: int -> Moment, days: set<int>)
    requires Dated(date, moment, days)
    ensures DistinctDates(date, days)
  {
    forall d, e | d in days && e in days && date(d) == date(e)
      ensures d == e
    {
      SameDate(moment(d), moment(e));
    }
  }

  /** The days of a sorted listing are those of the store's files, each once and in order. */
  lemma ListedDays(c: Codec, root: string, date: int -> string, moment: int -> Moment, disk: Disk, files: LogStore.Files, paths: seq<ShardPath>)
    returns (days: seq<int>)
    requires Dated(date, moment, files.Keys) && Mirrors(c, date, disk, files) && SortedListing(root, disk, paths)
    ensures Ascending(days) && forall d :: d in days <==> d in files
    ensures ItemPaths(paths) == PathsOf(date, days)
  {
    days := SortedItems(root, date, moment, files.Keys, paths);
    DatesTell(date, moment, files.Keys);
    forall d | d in files
      ensures d in days
    {
      PathOfDay(date, days, ItemShard(date, d));
    }
  }

  /** From the bytes on disk to the live table: for the sorted listing of the directory, other
      files between included, the collector returns the live items if and only if no stray line
      is left, and it can read every item shard. */
  lemma RebuildFromBytesExact(c: Codec, root: string, date: int -> string, moment: int -> Moment, disk: Disk, s: LogStore.Store, paths: seq<ShardPath>)
    requires s.Valid() && Orderly(s.history) && Mirrors(c, date, disk, s.files)
    requires forall d, r :: d in s.files && r in s.files[d] ==> Survives(c, r)
    requires Dated(date, moment, s.files.Keys) && SortedListing(root, disk, paths)
    ensures CollectPaths(c, disk, paths) == s.tables.items <==> NoStrayLine(s.history, s.tables.items)
    ensures forall p :: p in paths && p.entity == "items" ==> Readable(disk, p)
  {
    var days := ListedDays(c, root, date, moment, disk, s.files, paths);
    OnlyItemPathsCount(c, disk, paths);
    forall d | d in s.files
      ensures CollectFile(c, ShardFiles.Content(disk, ItemShard(date, d))) == Collect(s.files[d])
      ensures Readable(disk, ItemShard(date, d))
    {
      ShardCarriesRows(c, date, disk, s.files, d);
    }
    BytesReplayTheFiles(c, date, disk, s.files, days);
    LogStore.RebuildCollectsTheLiveItems(s, days);
  }

  /** With or without rotation and whatever else is appended, a shard filled from empty by
      writing encoded rows gives the collector exactly those rows, the last per ID winning. */
  lemma ShardGivesItsRows(c: Codec, states: seq<Disk>, log: seq<ShardFiles.Appended>, limit: int, p: ShardPath, rows: seq<Row>)
    requires ShardFiles.IsFreshRun(states, log, limit)
    requires ShardFiles.DataOf(log, p) == EncodeRows(c, rows) && forall r :: r in rows ==> Survives(c, r)
    ensures CollectFile(c, ShardFiles.Content(states[|log|], p)) == Collect(rows)
  {
    ShardFiles.FilesHoldTheLog(states, log, limit, p);
    assert [] + Encode(EncodeRows(c, rows)) == Encode(EncodeRows(c, rows));
    FileCarriesRows(c, rows);
  }
}
