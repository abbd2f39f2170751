/** Append-only shard files: the writer with size rotation, the reader, and what
    holds of the files after any run of appends. */
module ShardFiles {
  import opened Common
  import opened ShardLines

  // index 0 is the file the date names; index i > 0 is its i-th rotation.
  datatype ShardPath = ShardPath(entity: string, date: string, index: nat)

  datatype Location = Location(path: ShardPath, offset: nat, size: nat)

  type Files = map<ShardPath, Bytes>

  function Content(files: Files, p: ShardPath): Bytes {
    if p in files then files[p] else []
  }

  // ---------------------------------------------------------------- names

  function Pad3(i: nat): string {
    if i < 10 then "00" + Decimal(i) else if i < 100 then "0" + Decimal(i) else Decimal(i)
  }

  function FileName(p: ShardPath): string {
    if p.index == 0 then p.date + ".jsonl" else p.date + ".jsonl" + "_" + Pad3(p.index)
  }

  /** The scanner keeps a file by its suffix, so it lists exactly the unrotated ones. */
  lemma ScannerSeesOnlyUnrotated(p: ShardPath)
    ensures HasSuffix(FileName(p), ".jsonl") <==> p.index == 0
  {
    var n := FileName(p);
    if p.index == 0 {
      assert n[|n| - 6..] == ".jsonl";
    } else {
      var d := Decimal(p.index);
      assert n[|n| - 1] == d[|d| - 1] && d[|d| - 1] in d;
      assert n[|n| - 6..][5] == n[|n| - 1] != 'l';
    }
  }

  lemma PaddedDenotes(i: nat)
    ensures Denoted(Pad3(i)) == i
  {
    var d := Decimal(i);
    DecimalDenotes(i);
    LeadingZero(d);
    LeadingZero("0" + d);
    assert "00" + d == "0" + ("0" + d);
  }

  /** The index of a rotated file is written with three digits, or as many as it needs. */
  lemma PaddedToThree(i: nat)
    ensures |Pad3(i)| == if i < 1000 then 3 else |Decimal(i)|
    ensures Denoted(Pad3(i)) == i
  {
    PaddedDenotes(i);
    if i < 10 {
      assert |Decimal(i)| == 1;
    } else if i < 100 {
      assert |Decimal(i)| == 1 + |Decimal(i / 10)| == 2;
    } else if i < 1000 {
      assert |Decimal(i)| == 1 + |Decimal(i / 10)| == 2 + |Decimal(i / 10 / 10)| == 3;
    }
  }

  /** Two files of one date length never share a name. */
  lemma NamesAreDistinct(p: ShardPath, q: ShardPath)
    requires |p.date| == |q.date|
    requires FileName(p) == FileName(q)
    ensures p.date == q.date && p.index == q.index
  {
    var n := |p.date|;
    assert p.date == FileName(p)[..n] && q.date == FileName(q)[..n];
    PaddedDenotes(p.index);
    PaddedDenotes(q.index);
    assert p.index > 0 ==> FileName(p)[n + 7..] == Pad3(p.index);
    assert q.index > 0 ==> FileName(q)[n + 7..] == Pad3(q.index);
  }

  // ---------------------------------------------------------------- writer

  /** A file that takes the next line: it does not exist or is below the limit. */
  predicate HasRoom(files: Files, limit: int, p: ShardPath) {
    p !in files || |files[p]| < limit
  }

  /** The file an append goes to: the first of its chain with room, and always the
      base file when rotation is switched off. */
  predicate IsTarget(files: Files, limit: int, entity: string, date: string, p: ShardPath) {
    && p.entity == entity && p.date == date
    && if limit <= 0 then p.index == 0
       else HasRoom(files, limit, p) && forall k :: 0 <= k < p.index ==> !HasRoom(files, limit, p.(index := k))
  }

  ghost predicate AppendStep(before: Files, after: Files, limit: int, entity: string, date: string, data: Bytes, loc: Location) {
    && IsTarget(before, limit, entity, date, loc.path)
    && loc.offset == |Content(before, loc.path)|
    && loc.size == |data| + 1
    && after == before[loc.path := Content(before, loc.path) + Line(data)]
  }

  class Writer {
    var files: Files
    const maxShardSize: int

    constructor (maxShardSize: int)
      ensures files == map[] && this.maxShardSize == maxShardSize
    {
      files := map[];
      this.maxShardSize := maxShardSize;
    }

    /** The search for a rotation candidate has no bound of its own: it stops because
        every candidate it passes is an existing file. */
    method RotateIfNeeded(base: ShardPath) returns (target: ShardPath)
      requires base.index == 0 && maxShardSize > 0
      ensures IsTarget(files, maxShardSize, base.entity, base.date, target)
    {
      if base !in files || |files[base]| < maxShardSize {
        return base;
      }
      var i := 1;
      ghost var unseen := files.Keys;
      while true
        invariant i >= 1
        invariant forall k :: 0 <= k < i ==> !HasRoom(files, maxShardSize, base.(index := k))
        invariant forall k: nat :: k >= i && base.(index := k) in files ==> base.(index := k) in unseen
        decreases unseen
      {
        var candidate := base.(index := i);
        if candidate !in files || |files[candidate]| < maxShardSize {
          return candidate;
        }
        unseen := unseen - {candidate};
        i := i + 1;
      }
    }

    method Append(cancelled: bool, entity: string, date: string, data: Bytes) returns (r: Option<Location>)
      modifies this
      ensures cancelled ==> r.None? && files == old(files)
      ensures !cancelled ==> r.Some? && AppendStep(old(files), files, maxShardSize, entity, date, data, r.value)
    {
      if cancelled {
        return None;
      }
      var target := ShardPath(entity, date, 0);
      if maxShardSize > 0 {
        target := RotateIfNeeded(target);
      }
      var offset := if target in files then |files[target]| else 0;
      var line := data + [NEWLINE];
      files := files[target := (if target in files then files[target] else []) + line];
      return Some(Location(target, offset, |line|));
    }
  }

  // ---------------------------------------------------------------- reader

  datatype ReadError = NoSuchFile | LineTooLong

  function Onto(found: seq<Bytes>, rest: ReadResult): ReadResult {
    match rest
    case TooLong => TooLong
    case Records(rs) => Records(found + rs)
  }

  lemma OntoPrepend(found: seq<Bytes>, line: Bytes, rest: ReadResult)
    ensures Onto(found, Prepend(line, rest)) == Onto(if line == [] then found else found + [line], rest)
  {
    if rest.Records? && line != [] {
      assert found + ([line] + rest.records) == found + [line] + rest.records;
    }
  }

  /** One turn of the scanner's loop: the line goes to the records found, unless it is empty. */
  lemma ScanStep(b: Bytes, found: seq<Bytes>)
    requires b != [] && LineEnd(b) < MAX_TOKEN
    ensures var line := DropReturn(b[..LineEnd(b)]);
            Onto(found, Scan(b)) == Onto(if line == [] then found else found + [line], Scan(Tail(b)))
  {
    OntoPrepend(found, DropReturn(b[..LineEnd(b)]), Scan(Tail(b)));
  }

  class Reader {
    constructor () {}

    method ReadAll(files: Files, path: ShardPath) returns (r: Result<seq<Bytes>, ReadError>)
      ensures path !in files ==> r == Err(NoSuchFile)
      ensures path in files ==> r == (match Scan(files[path]) case Records(rs) => Ok(rs) case TooLong => Err(LineTooLong))
    {
      if path !in files {
        return Err(NoSuchFile);
      }
      var left, records := files[path], [];
      while left != []
        invariant Scan(files[path]) == Onto(records, Scan(left))
        decreases |left|
      {
        var end := LineEnd(left);
        if end >= MAX_TOKEN {
          return Err(LineTooLong);
        }
        ScanStep(left, records);
        var line := DropReturn(left[..end]);
        if line != [] {
          records := records + [line];
        }
        left := Tail(left);
      }
      assert records + [] == records;
      return Ok(records);
    }

    method RecordCount(files: Files, path: ShardPath) returns (r: Result<nat, ReadError>)
      ensures path !in files ==> r == Err(NoSuchFile)
      ensures path in files ==> r == (match Scan(files[path]) case Records(rs) => Ok(|rs|) case TooLong => Err(LineTooLong))
    {
      if path !in files {
        return Err(NoSuchFile);
      }
      var left, count := files[path], 0;
      ghost var records := [];
      while left != []
        invariant Scan(files[path]) == Onto(records, Scan(left)) && count == |records|
        decreases |left|
      {
        var end := LineEnd(left);
        if end >= MAX_TOKEN {
          return Err(LineTooLong);
        }
        ScanStep(left, records);
        if |DropReturn(left[..end])| > 0 {
          count := count + 1;
          records := records + [DropReturn(left[..end])];
        }
        left := Tail(left);
      }
      return Ok(count);
    }

    /** Reads up to size bytes; what lies past the end of the file is not returned. */
    method ReadAt(files: Files, path: ShardPath, offset: nat, size: nat) returns (r: Result<Bytes, ReadError>)
      ensures path !in files ==> r == Err(NoSuchFile)
      ensures path in files && offset + size <= |files[path]| ==> r == Ok(files[path][offset..offset + size])
      ensures path in files && offset <= |files[path]| < offset + size ==> r == Ok(files[path][offset..])
      ensures path in files && |files[path]| < offset ==> r == Ok([])
    {
      if path !in files {
        return Err(NoSuchFile);
      }
      var b := files[path];
      var from := if offset < |b| then offset else |b|;
      var to := if offset + size < |b| then offset + size else |b|;
      assert b[|b|..|b|] == [];
      assert b[from..|b|] == b[from..];
      return Ok(b[from..to]);
    }
  }

  // ---------------------------------------------------------------- runs

  datatype Appended = Appended(entity: string, date: string, data: Bytes, loc: Location)

  /** states[i+1] is the directory after the i-th logged append. */
  ghost predicate IsRun(states: seq<Files>, log: seq<Appended>, limit: int) {
    && |states| == |log| + 1
    && forall i :: 0 <= i < |log| ==>
      AppendStep(states[i], states[i + 1], limit, log[i].entity, log[i].date, log[i].data, log[i].loc)
  }

  /** The records logged as written to one file, in order. */
  function DataOf(log: seq<Appended>, p: ShardPath): seq<Bytes> {
    if log == [] then []
    else
      var last, before := log[|log| - 1], DataOf(log[..|log| - 1], p);
      if last.loc.path == p then before + [last.data] else before
  }

  /** A run that starts in an empty data directory. */
  ghost predicate IsFreshRun(states: seq<Files>, log: seq<Appended>, limit: int) {
    IsRun(states, log, limit) && states[0] == map[]
  }

  lemma RunPrefix(states: seq<Files>, log: seq<Appended>, limit: int, n: nat)
    requires IsRun(states, log, limit) && n <= |log|
    ensures IsRun(states[..n + 1], log[..n], limit)
  {
  }

  /** A run adds to every file the lines logged to it and nothing else. */
  lemma {:induction false} FilesHoldTheLog(states: seq<Files>, log: seq<Appended>, limit: int, p: ShardPath)
    requires IsRun(states, log, limit)
    ensures Content(states[|log|], p) == Content(states[0], p) + Encode(DataOf(log, p))
    ensures p in states[|log|] <==> p in states[0] || DataOf(log, p) != []
    decreases |log|
  {
    if log != [] {
      var n := |log| - 1;
      RunPrefix(states, log, limit, n);
      FilesHoldTheLog(states[..n + 1], log[..n], limit, p);
      if log[n].loc.path == p {
        var before := DataOf(log[..n], p);
        assert DataOf(log, p)[..|before|] == before;
      }
    }
  }

  /** A file gives back exactly the records appended to it, in order, if and only if
      each of them is clean. */
  lemma ReadAllReturnsTheLog(states: seq<Files>, log: seq<Appended>, limit: int, p: ShardPath)
    requires IsFreshRun(states, log, limit)
    requires p in states[|log|]
    ensures Scan(states[|log|][p]) == Records(DataOf(log, p)) <==> forall r :: r in DataOf(log, p) ==> Clean(r)
  {
    assert states[|log|][p] == Encode(DataOf(log, p)) by {
      FilesHoldTheLog(states, log, limit, p);
    }
    RoundTrip(DataOf(log, p));
  }

  /** A location handed out by an append addresses its own record ever after,
      whatever the record is made of. */
  lemma {:induction false} LocationsStayReadable(states: seq<Files>, log: seq<Appended>, limit: int, i: nat, j: nat)
    requires IsRun(states, log, limit)
    requires i < j <= |log|
    ensures log[i].loc.path in states[j]
    ensures log[i].loc.offset + log[i].loc.size <= |states[j][log[i].loc.path]|
    ensures states[j][log[i].loc.path][log[i].loc.offset..log[i].loc.offset + log[i].loc.size] == Line(log[i].data)
    decreases j
  {
    var loc := log[i].loc;
    assert AppendStep(states[j - 1], states[j], limit, log[j - 1].entity, log[j - 1].date, log[j - 1].data, log[j - 1].loc);
    if j > i + 1 {
      LocationsStayReadable(states, log, limit, i, j - 1);
      var older := states[j - 1][loc.path];
      assert older <= states[j][loc.path];
      assert older[loc.offset..loc.offset + loc.size] == states[j][loc.path][loc.offset..loc.offset + loc.size];
    }
  }

  // ---------------------------------------------------------------- rotation

  /** A later file of a chain exists only when every earlier one exists and is full. */
  ghost predicate Chained(files: Files, limit: int) {
    forall p, k :: p in files && 0 <= k < p.index ==> p.(index := k) in files && |files[p.(index := k)]| >= limit
  }

  lemma {:induction false} ChainsHaveNoGaps(states: seq<Files>, log: seq<Appended>, limit: int)
    requires IsFreshRun(states, log, limit) && limit > 0
    ensures Chained(states[|log|], limit)
    decreases |log|
  {
    if log != [] {
      var n := |log| - 1;
      RunPrefix(states, log, limit, n);
      ChainsHaveNoGaps(states[..n + 1], log[..n], limit);
      var before, after, target := states[n], states[n + 1], log[n].loc.path;
      assert Chained(before, limit);
      assert AppendStep(before, after, limit, log[n].entity, log[n].date, log[n].data, log[n].loc);
      forall p, k | p in after && 0 <= k < p.index
        ensures p.(index := k) in after && |after[p.(index := k)]| >= limit
      {
        if p == target {
          assert !HasRoom(before, limit, target.(index := k));
        } else {
          assert p in before;
        }
      }
    }
  }

  /** A file never outgrows the limit by more than the line that closed it. */
  lemma {:induction false} OvershootIsOneLine(states: seq<Files>, log: seq<Appended>, limit: int, p: ShardPath)
    requires IsFreshRun(states, log, limit) && limit > 0
    requires p in states[|log|]
    ensures DataOf(log, p) != []
    ensures |states[|log|][p]| < limit + |Line(DataOf(log, p)[|DataOf(log, p)| - 1])|
    decreases |log|
  {
    var n := |log| - 1;
    RunPrefix(states, log, limit, n);
    assert AppendStep(states[n], states[n + 1], limit, log[n].entity, log[n].date, log[n].data, log[n].loc);
    if log[n].loc.path != p {
      OvershootIsOneLine(states[..n + 1], log[..n], limit, p);
      assert DataOf(log, p) == DataOf(log[..n], p);
    }
  }

  /** Bytes logged for one entity type and date, over all files of the chain. */
  function BytesFor(log: seq<Appended>, entity: string, date: string): nat {
    if log == [] then 0
    else
      var last := log[|log| - 1];
      BytesFor(log[..|log| - 1], entity, date)
      + (if last.entity == entity && last.date == date then |last.data| + 1 else 0)
  }

  /** Bytes in the first n files of a chain. */
  function ChainBytes(files: Files, entity: string, date: string, n: nat): nat {
    if n == 0 then 0
    else ChainBytes(files, entity, date, n - 1) + |Content(files, ShardPath(entity, date, n - 1))|
  }

  lemma {:induction false} ChainGrowth(before: Files, after: Files, target: ShardPath, line: Bytes, entity: string, date: string, n: nat)
    requires after == before[target := Content(before, target) + line]
    ensures ChainBytes(after, entity, date, n) == ChainBytes(before, entity, date, n)
            + if target.entity == entity && target.date == date && target.index < n then |line| else 0
  {
    if n > 0 {
      ChainGrowth(before, after, target, line, entity, date, n - 1);
    }
  }

  lemma {:induction false} ChainBytesAreLogged(states: seq<Files>, log: seq<Appended>, limit: int, entity: string, date: string, n: nat)
    requires IsFreshRun(states, log, limit)
    ensures ChainBytes(states[|log|], entity, date, n) <= BytesFor(log, entity, date)
    decreases |log|
  {
    if log == [] {
      EmptyChain(entity, date, n);
    } else {
      var k := |log| - 1;
      RunPrefix(states, log, limit, k);
      ChainBytesAreLogged(states[..k + 1], log[..k], limit, entity, date, n);
      ChainGrowth(states[k], states[k + 1], log[k].loc.path, Line(log[k].data), entity, date, n);
    }
  }

  lemma {:induction false} EmptyChain(entity: string, date: string, n: nat)
    ensures ChainBytes(map[], entity, date, n) == 0
  {
    if n > 0 {
      EmptyChain(entity, date, n - 1);
    }
  }

  lemma {:induction false} FullFilesWeigh(files: Files, limit: nat, entity: string, date: string, n: nat)
    requires forall k :: 0 <= k < n ==> |Content(files, ShardPath(entity, date, k))| >= limit
    ensures n * limit <= ChainBytes(files, entity, date, n)
  {
    if n > 0 {
      FullFilesWeigh(files, limit, entity, date, n - 1);
      assert n * limit == (n - 1) * limit + limit;
    }
  }

  /** The n-th rotation of a date exists only after n full limits of data for it. */
  lemma RotationIsPaidFor(states: seq<Files>, log: seq<Appended>, limit: nat, p: ShardPath)
    requires IsFreshRun(states, log, limit) && limit > 0
    requires p in states[|log|]
    ensures p.index * limit <= BytesFor(log, p.entity, p.date)
  {
    ChainsHaveNoGaps(states, log, limit);
    var files := states[|log|];
    forall k | 0 <= k < p.index
      ensures |Content(files, ShardPath(p.entity, p.date, k))| >= limit
    {
      assert p.(index := k) == ShardPath(p.entity, p.date, k);
    }
    FullFilesWeigh(files, limit, p.entity, p.date, p.index);
    ChainBytesAreLogged(states, log, limit, p.entity, p.date, p.index);
  }

  /** The records logged for one entity type and date, whatever file they went to. */
  function DataFor(log: seq<Appended>, entity: string, date: string): seq<Bytes> {
    if log == [] then []
    else
      var last, before := log[|log| - 1], DataFor(log[..|log| - 1], entity, date);
      if last.loc.path.entity == entity && last.loc.path.date == date then before + [last.data] else before
  }

  /** The records of the first n files of a chain, one file after the other. */
  function ChainData(log: seq<Appended>, entity: string, date: string, n: nat): seq<Bytes> {
    if n == 0 then []
    else ChainData(log, entity, date, n - 1) + DataOf(log, ShardPath(entity, date, n - 1))
  }

  lemma {:induction false} LastFileGrows(log: seq<Appended>, a: Appended, entity: string, date: string, n: nat)
    requires forall j: nat :: a.loc.path.index < j < n ==> DataOf(log, a.loc.path.(index := j)) == []
    ensures ChainData(log + [a], entity, date, n) ==
            if a.loc.path.entity == entity && a.loc.path.date == date && a.loc.path.index < n
            then ChainData(log, entity, date, n) + [a.data] else ChainData(log, entity, date, n)
  {
    if n > 0 {
      LastFileGrows(log, a, entity, date, n - 1);
      assert (log + [a])[..|log|] == log;
      var p := ShardPath(entity, date, n - 1);
      if a.loc.path == p {
        assert ChainData(log, entity, date, n - 1) + (DataOf(log, p) + [a.data]) == ChainData(log, entity, date, n) + [a.data];
      } else if a.loc.path.entity == entity && a.loc.path.date == date && a.loc.path.index < n - 1 {
        assert ChainData(log, entity, date, n) == ChainData(log, entity, date, n - 1);
      }
    }
  }

  lemma {:induction false} FilesStay(states: seq<Files>, log: seq<Appended>, limit: int, i: nat, j: nat, p: ShardPath)
    requires IsRun(states, log, limit) && i <= j <= |log| && p in states[i]
    ensures p in states[j]
    decreases j
  {
    if i < j {
      FilesStay(states, log, limit, i, j - 1, p);
      assert AppendStep(states[j - 1], states[j], limit, log[j - 1].entity, log[j - 1].date, log[j - 1].data, log[j - 1].loc);
    }
  }

  /** No file of the chain after the one an append goes to has been written yet. */
  lemma NothingAfterTarget(states: seq<Files>, log: seq<Appended>, limit: int, j: nat)
    requires IsFreshRun(states, log, limit) && limit > 0
    requires log != [] && log[|log| - 1].loc.path.index < j
    ensures DataOf(log[..|log| - 1], log[|log| - 1].loc.path.(index := j)) == []
  {
    var k := |log| - 1;
    var target := log[k].loc.path;
    var later := target.(index := j);
    RunPrefix(states, log, limit, k);
    ChainsHaveNoGaps(states[..k + 1], log[..k], limit);
    FilesHoldTheLog(states[..k + 1], log[..k], limit, later);
    assert AppendStep(states[k], states[k + 1], limit, log[k].entity, log[k].date, log[k].data, log[k].loc);
    assert later.(index := target.index) == target;
  }

  /** Rotation never reorders: the files of a date, read in the order of their indices, hold
      the records of that date in the order they were appended. */
  lemma {:induction false} ChainKeepsOrder(states: seq<Files>, log: seq<Appended>, limit: int, entity: string, date: string, n: nat)
    requires IsFreshRun(states, log, limit) && limit > 0
    requires forall p :: p in states[|log|] && p.entity == entity && p.date == date ==> p.index < n
    ensures ChainData(log, entity, date, n) == DataFor(log, entity, date)
    decreases |log|
  {
    if log == [] {
      EmptyChainData(entity, date, n);
    } else {
      var k := |log| - 1;
      var before, target := states[k], log[k].loc.path;
      RunPrefix(states, log, limit, k);
      forall p | p in before && p.entity == entity && p.date == date
        ensures p.index < n
      {
        FilesStay(states, log, limit, k, k + 1, p);
      }
      ChainKeepsOrder(states[..k + 1], log[..k], limit, entity, date, n);
      assert AppendStep(before, states[k + 1], limit, log[k].entity, log[k].date, log[k].data, log[k].loc);
      forall j: nat | target.index < j < n
        ensures DataOf(log[..k], target.(index := j)) == []
      {
        NothingAfterTarget(states, log, limit, j);
      }
      LastFileGrows(log[..k], log[k], entity, date, n);
      assert log == log[..k] + [log[k]];
      assert target in states[k + 1];
    }
  }

  lemma {:induction false} EmptyChainData(entity: string, date: string, n: nat)
    ensures ChainData([], entity, date, n) == []
  {
    if n > 0 {
      EmptyChainData(entity, date, n - 1);
    }
  }

  lemma {:induction false} RecordsInBase(log: seq<Appended>, entity: string, date: string)
    ensures |DataOf(log, ShardPath(entity, date, 0))| <= |DataFor(log, entity, date)|
    ensures DataOf(log, ShardPath(entity, date, 0)) == DataFor(log, entity, date)
            <==> forall a :: a in log && a.loc.path.entity == entity && a.loc.path.date == date ==> a.loc.path.index == 0
    ensures |DataOf(log, ShardPath(entity, date, 0))| == |DataFor(log, entity, date)|
            ==> DataOf(log, ShardPath(entity, date, 0)) == DataFor(log, entity, date)
  {
    if log != [] {
      var n := |log| - 1;
      RecordsInBase(log[..n], entity, date);
      assert log == log[..n] + [log[n]];
      assert log[n].loc.path == ShardPath(entity, date, 0)
             <==> log[n].loc.path.entity == entity && log[n].loc.path.date == date && log[n].loc.path.index == 0;
    }
  }

  lemma {:induction false} LoggedFile(log: seq<Appended>, p: ShardPath)
    ensures DataOf(log, p) != [] <==> exists a :: a in log && a.loc.path == p
  {
    if log != [] {
      var n := |log| - 1;
      LoggedFile(log[..n], p);
      assert log == log[..n] + [log[n]];
    }
  }

  /** A rebuild, which reads the files the scanner lists, finds all records of a date if and
      only if that date was never rotated. */
  lemma ScannedFileHoldsAllExactly(states: seq<Files>, log: seq<Appended>, limit: int, entity: string, date: string)
    requires IsFreshRun(states, log, limit)
    ensures DataOf(log, ShardPath(entity, date, 0)) == DataFor(log, entity, date)
            <==> forall p :: p in states[|log|] && p.entity == entity && p.date == date ==> HasSuffix(FileName(p), ".jsonl")
  {
    RecordsInBase(log, entity, date);
    forall p
      ensures p in states[|log|] <==> exists a :: a in log && a.loc.path == p
      ensures HasSuffix(FileName(p), ".jsonl") <==> p.index == 0
    {
      FilesHoldTheLog(states, log, limit, p);
      LoggedFile(log, p);
      ScannerSeesOnlyUnrotated(p);
    }
  }

  lemma OneRecord(a: Appended)
    ensures DataOf([a], a.loc.path) == [a.data] && DataFor([a], a.loc.path.entity, a.loc.path.date) == [a.data]
  {
    assert [a][..0] == [];
  }

  /** Two records and a limit of one byte: the second goes to a file that is not listed. */
  lemma RotatedRecordIsNotScanned(first: byte, second: byte) returns (states: seq<Files>, log: seq<Appended>)
    ensures IsFreshRun(states, log, 1) && |log| == 2
    ensures DataFor(log, "items", "day") == [[first], [second]] && DataOf(log, ShardPath("items", "day", 0)) == [[first]]
  {
    var base, rotated := ShardPath("items", "day", 0), ShardPath("items", "day", 1);
    var a, b := Appended("items", "day", [first], Location(base, 0, 2)), Appended("items", "day", [second], Location(rotated, 0, 2));
    log := [a, b];
    states := [map[], map[base := Line([first])], map[base := Line([first]), rotated := Line([second])]];
    assert [] + Line([first]) == Line([first]) && [] + Line([second]) == Line([second]);
    assert AppendStep(states[0], states[1], 1, "items", "day", [first], a.loc);
    assert rotated.(index := 0) == base;
    assert AppendStep(states[1], states[2], 1, "items", "day", [second], b.loc);
    assert log[..1] == [a];
    OneRecord(a);
  }
}
