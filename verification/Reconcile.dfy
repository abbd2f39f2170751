/** The shard manifest and its reconciliation against the shard files. */
module Reconcile {
  import opened Common
  import opened ShardLines
  import opened ShardFiles

  datatype Manifest = Manifest(recordCount: nat, checksum: string, corrupted: bool)

  type Manifests = map<ShardPath, Manifest>

  datatype Report = Report(shardCount: nat, indexCount: nat, orphaned: nat, missing: nat, mismatches: nat)

  type Digest = Bytes -> string

  function Count(b: Bytes): nat {
    match Scan(b)
    case Records(rs) => |rs|
    case TooLong => 0
  }

  /** The scan of the shard directory: every unrotated file, once, in some order. */
  ghost predicate IsListing(listed: seq<ShardPath>, files: Files) {
    && (forall p :: p in listed <==> p in files && p.index == 0)
    && forall i, j :: 0 <= i < j < |listed| ==> listed[i] != listed[j]
  }

  // Contribution of one shard file to each figure of the report.

  function Known(files: Files, m: Manifests, p: ShardPath): nat {
    if p in files && Scan(files[p]).Records? && p in m then m[p].recordCount else 0
  }

  function InFile(files: Files, p: ShardPath): nat {
    if p in files then Count(files[p]) else 0
  }

  function Orphans(files: Files, m: Manifests, p: ShardPath): nat {
    if InFile(files, p) > Known(files, m, p) then InFile(files, p) - Known(files, m, p) else 0
  }

  function Missing(files: Files, m: Manifests, p: ShardPath): nat {
    if InFile(files, p) < Known(files, m, p) then Known(files, m, p) - InFile(files, p) else 0
  }

  function Mismatch(files: Files, m: Manifests, sum: Digest, p: ShardPath): nat {
    if p in files && Scan(files[p]).Records? && p in m && m[p].checksum != "" && m[p].checksum != sum(files[p])
    then 1 else 0
  }

  // The same contributions as functions of the file, to be summed over a listing.

  function OrphansIn(files: Files, m: Manifests): ShardPath -> nat { p => Orphans(files, m, p) }

  function MissingIn(files: Files, m: Manifests): ShardPath -> nat { p => Missing(files, m, p) }

  function MismatchIn(files: Files, m: Manifests, sum: Digest): ShardPath -> nat { p => Mismatch(files, m, sum, p) }

  function KnownIn(files: Files, m: Manifests): ShardPath -> nat { p => Known(files, m, p) }

  function RecordsIn(files: Files): ShardPath -> nat { p => InFile(files, p) }

  function LinesIn(log: seq<Appended>): ShardPath -> nat { p => |DataOf(log, p)| }

  function Total(f: ShardPath -> nat, listed: seq<ShardPath>): nat {
    if listed == [] then 0 else Total(f, listed[..|listed| - 1]) + f(listed[|listed| - 1])
  }

  lemma TotalStep(f: ShardPath -> nat, listed: seq<ShardPath>, n: nat)
    requires n < |listed|
    ensures Total(f, listed[..n + 1]) == Total(f, listed[..n]) + f(listed[n])
  {
    assert listed[..n + 1][..n] == listed[..n];
  }

  class Catalog {
    var manifests: Manifests

    constructor ()
      ensures manifests == map[]
    {
      manifests := map[];
    }

    /** Refills the cleared manifest table, one entry a listed shard. */
    method RebuildManifests(files: Files, listed: seq<ShardPath>, sum: Digest)
      requires IsListing(listed, files)
      modifies this
      ensures manifests == ManifestsOf(files, sum)
      ensures forall p :: p in manifests <==> p in listed
      ensures forall p :: p in listed ==>
                manifests[p] == match Scan(files[p])
                                case Records(rs) => Manifest(|rs|, sum(files[p]), false)
                                case TooLong => Manifest(0, "", true)
    {
      var reader := new Reader();
      manifests := map[];
      for n := 0 to |listed|
        invariant forall p :: p in manifests <==> p in listed[..n]
        invariant forall p :: p in manifests ==> p in files && manifests[p] == ManifestOf(files[p], sum)
      {
        var path := listed[n];
        assert path in listed;
        var read := reader.ReadAll(files, path);
        var entry := Manifest(0, "", true);
        if read.Ok? {
          entry := Manifest(|read.value|, sum(files[path]), false);
        }
        manifests := manifests[path := entry];
        assert listed[..n + 1] == listed[..n] + [path];
      }
      assert listed[..|listed|] == listed;
    }

    /** Compares shards with manifest entries. */
    method Reconcile(files: Files, listed: seq<ShardPath>, sum: Digest) returns (report: Report)
      requires IsListing(listed, files)
      ensures report.shardCount == |listed|
      ensures report.indexCount == Total(KnownIn(files, manifests), listed)
      ensures report.orphaned == Total(OrphansIn(files, manifests), listed)
      ensures report.missing == Total(MissingIn(files, manifests), listed)
      ensures report.mismatches == Total(MismatchIn(files, manifests, sum), listed)
      ensures report.indexCount + report.orphaned - report.missing == Total(RecordsIn(files), listed)
    {
      var m := manifests;
      var reader := new Reader();
      ghost var orphans := OrphansIn(files, m);
      ghost var lost := MissingIn(files, m);
      ghost var changed := MismatchIn(files, m, sum);
      ghost var known := KnownIn(files, m);
      ghost var present := RecordsIn(files);
      report := Report(|listed|, 0, 0, 0, 0);
      for n := 0 to |listed|
        invariant report.shardCount == |listed|
        invariant report.indexCount == Total(known, listed[..n])
        invariant report.orphaned == Total(orphans, listed[..n])
        invariant report.missing == Total(lost, listed[..n])
        invariant report.mismatches == Total(changed, listed[..n])
        invariant report.indexCount + report.orphaned - report.missing == Total(present, listed[..n])
      {
        var path := listed[n];
        assert path in listed;
        TotalStep(known, listed, n);
        TotalStep(orphans, listed, n);
        TotalStep(lost, listed, n);
        TotalStep(changed, listed, n);
        TotalStep(present, listed, n);
        var read := reader.ReadAll(files, path);
        if read.Err? {
          continue;
        }
        var shardCount := |read.value|;
        if path !in m {
          report := report.(orphaned := report.orphaned + shardCount);
          continue;
        }
        if m[path].recordCount != shardCount {
          if shardCount > m[path].recordCount {
            report := report.(orphaned := report.orphaned + (shardCount - m[path].recordCount));
          } else {
            report := report.(missing := report.missing + (m[path].recordCount - shardCount));
          }
        }
        if m[path].checksum != "" && m[path].checksum != sum(files[path]) {
          report := report.(mismatches := report.mismatches + 1);
        }
        report := report.(indexCount := report.indexCount + m[path].recordCount);
      }
      assert listed[..|listed|] == listed;
    }
  }

  function ManifestOf(b: Bytes, sum: Digest): Manifest {
    if Scan(b).Records? then Manifest(Count(b), sum(b), false) else Manifest(0, "", true)
  }

  function ManifestsOf(files: Files, sum: Digest): Manifests {
    map p | p in files && p.index == 0 :: ManifestOf(files[p], sum)
  }

  // ---------------------------------------------------------------- after a rebuild

  ghost predicate CleanEncoding(b: Bytes, rs: seq<Bytes>) {
    b == Encode(rs) && forall r :: r in rs ==> Clean(r)
  }

  /** Every file is what the writer makes of clean records. */
  ghost predicate WellWritten(files: Files) {
    forall p :: p in files ==> exists rs :: CleanEncoding(files[p], rs)
  }

  /** Lines logged to files the scan lists. */
  function ListedLines(log: seq<Appended>): nat {
    if log == [] then 0
    else ListedLines(log[..|log| - 1]) + if log[|log| - 1].loc.path.index == 0 then 1 else 0
  }

  /** Appending clean records to a well-written file adds exactly their number. */
  lemma CountOfAppend(b: Bytes, data: seq<Bytes>)
    requires b == [] || exists rs :: CleanEncoding(b, rs)
    requires forall r :: r in data ==> Clean(r)
    ensures Scan(b).Records? && Scan(b + Encode(data)).Records?
    ensures Count(b + Encode(data)) == Count(b) + |data|
  {
    var rs: seq<Bytes> := [];
    if b != [] {
      rs :| CleanEncoding(b, rs);
    }
    EncodeConcat(rs, data);
    CleanRoundTrip(rs);
    CleanRoundTrip(rs + data);
  }

  lemma {:induction false} LoggedData(log: seq<Appended>, p: ShardPath)
    requires forall a :: a in log ==> Clean(a.data)
    ensures forall r :: r in DataOf(log, p) ==> Clean(r)
  {
    if log != [] {
      assert log[|log| - 1] in log;
      forall a | a in log[..|log| - 1]
        ensures a in log
      {
      }
      LoggedData(log[..|log| - 1], p);
    }
  }

  lemma {:induction false} TotalOfBump(f: ShardPath -> nat, g: ShardPath -> nat, at: ShardPath, listed: seq<ShardPath>)
    requires forall p :: g(p) == f(p) + if p == at then 1 else 0
    requires forall i, j :: 0 <= i < j < |listed| ==> listed[i] != listed[j]
    ensures Total(g, listed) == Total(f, listed) + if at in listed then 1 else 0
  {
    if listed != [] {
      var n := |listed| - 1;
      TotalOfBump(f, g, at, listed[..n]);
      assert at in listed <==> at in listed[..n] || at == listed[n];
    }
  }

  lemma {:induction false} TotalOfZero(f: ShardPath -> nat, listed: seq<ShardPath>)
    requires forall p :: p in listed ==> f(p) == 0
    ensures Total(f, listed) == 0
  {
    if listed != [] {
      assert listed[|listed| - 1] in listed;
      TotalOfZero(f, listed[..|listed| - 1]);
    }
  }

  lemma {:induction false} TotalAgrees(f: ShardPath -> nat, g: ShardPath -> nat, listed: seq<ShardPath>)
    requires forall p :: p in listed ==> f(p) == g(p)
    ensures Total(f, listed) == Total(g, listed)
  {
    if listed != [] {
      assert listed[|listed| - 1] in listed;
      TotalAgrees(f, g, listed[..|listed| - 1]);
    }
  }

  lemma {:induction false} LinesPerFileAddUp(log: seq<Appended>, listed: seq<ShardPath>)
    requires forall i, j :: 0 <= i < j < |listed| ==> listed[i] != listed[j]
    requires forall a :: a in log && a.loc.path.index == 0 ==> a.loc.path in listed
    requires forall p :: p in listed ==> p.index == 0
    ensures Total(LinesIn(log), listed) == ListedLines(log)
    decreases |log|
  {
    if log == [] {
      TotalOfZero(LinesIn(log), listed);
    } else {
      var n := |log| - 1;
      forall a | a in log[..n]
        ensures a in log
      {
      }
      LinesPerFileAddUp(log[..n], listed);
      assert log[n] in log;
      TotalOfBump(LinesIn(log[..n]), LinesIn(log), log[n].loc.path, listed);
    }
  }

  /** From a fresh manifest on, reconciliation counts exactly the lines appended since to
      listed files as orphaned, none as missing, and sees no changed file if there are none. */
  lemma ReconcileAfterRebuild(states: seq<Files>, log: seq<Appended>, limit: int, listed: seq<ShardPath>, sum: Digest)
    requires IsRun(states, log, limit)
    requires WellWritten(states[0])
    requires forall a :: a in log ==> Clean(a.data)
    requires IsListing(listed, states[|log|])
    ensures var m := ManifestsOf(states[0], sum);
            && Total(OrphansIn(states[|log|], m), listed) == ListedLines(log)
            && Total(MissingIn(states[|log|], m), listed) == 0
            && (log == [] ==> Total(MismatchIn(states[|log|], m, sum), listed) == 0)
  {
    var before, after, m := states[0], states[|log|], ManifestsOf(states[0], sum);
    forall p | p in listed
      ensures Orphans(after, m, p) == |DataOf(log, p)| && Missing(after, m, p) == 0
    {
      FilesHoldTheLog(states, log, limit, p);
      LoggedData(log, p);
      CountOfAppend(Content(before, p), DataOf(log, p));
      assert p in before ==> p in m && m[p] == ManifestOf(before[p], sum);
      assert after[p] == Content(before, p) + Encode(DataOf(log, p));
    }
    TotalAgrees(OrphansIn(after, m), LinesIn(log), listed);
    TotalOfZero(MissingIn(after, m), listed);
    forall a | a in log && a.loc.path.index == 0
      ensures a.loc.path in listed
    {
      LoggedFileExists(states, log, limit, a);
    }
    LinesPerFileAddUp(log, listed);
    if log == [] {
      TotalOfZero(MismatchIn(after, m, sum), listed);
    }
  }

  lemma LoggedFileExists(states: seq<Files>, log: seq<Appended>, limit: int, a: Appended)
    requires IsRun(states, log, limit) && a in log
    ensures a.loc.path in states[|log|]
  {
    var i :| 0 <= i < |log| && log[i] == a;
    LocationsStayReadable(states, log, limit, i, |log|);
  }

  // ---------------------------------------------------------------- after any change of the files

  lemma {:induction false} TotalIsPositive(f: ShardPath -> nat, listed: seq<ShardPath>)
    ensures Total(f, listed) > 0 <==> exists p :: p in listed && f(p) > 0
  {
    if listed != [] {
      var n := |listed| - 1;
      TotalIsPositive(f, listed[..n]);
      assert listed == listed[..n] + [listed[n]];
    }
  }

  function Ones(f: ShardPath -> nat, listed: seq<ShardPath>): set<ShardPath> {
    set p | p in listed && f(p) == 1
  }

  lemma OneMoreListed(f: ShardPath -> nat, before: seq<ShardPath>, p: ShardPath)
    requires p !in before
    ensures |Ones(f, before + [p])| == |Ones(f, before)| + if f(p) == 1 then 1 else 0
  {
    assert Ones(f, before + [p]) == if f(p) == 1 then Ones(f, before) + {p} else Ones(f, before);
  }

  lemma {:induction false} TotalOfOnes(f: ShardPath -> nat, listed: seq<ShardPath>)
    requires forall i, j :: 0 <= i < j < |listed| ==> listed[i] != listed[j]
    requires forall p :: p in listed ==> f(p) <= 1
    ensures Total(f, listed) == |Ones(f, listed)|
  {
    if listed != [] {
      var before, last := listed[..|listed| - 1], listed[|listed| - 1];
      assert listed == before + [last] && last !in before;
      TotalOfOnes(f, before);
      OneMoreListed(f, before, last);
    }
  }

  /** Records a file has lost since it was recorded. */
  function LostSince(was: Files, files: Files): ShardPath -> nat {
    p => if p in was && p in files && Count(files[p]) < Count(was[p]) then Count(was[p]) - Count(files[p]) else 0
  }

  /** Records a file had when it was recorded. */
  function RecordedIn(was: Files): ShardPath -> nat {
    p => if p in was then Count(was[p]) else 0
  }

  lemma FiguresSince(was: Files, files: Files, sum: Digest, p: ShardPath)
    requires WellWritten(was) && WellWritten(files) && p in files && p.index == 0
    requires forall b :: sum(b) != ""
    ensures var m := ManifestsOf(was, sum);
            && Known(files, m, p) == RecordedIn(was)(p)
            && Missing(files, m, p) == LostSince(was, files)(p)
            && Mismatch(files, m, sum, p) == if p in was && sum(files[p]) != sum(was[p]) then 1 else 0
  {
    CountOfAppend(files[p], []);
    if p in was {
      CountOfAppend(was[p], []);
    }
  }

  lemma SumsSince(was: Files, files: Files, sum: Digest, listed: seq<ShardPath>)
    requires WellWritten(was) && WellWritten(files) && IsListing(listed, files)
    requires forall b :: sum(b) != ""
    ensures var m := ManifestsOf(was, sum);
            && Total(KnownIn(files, m), listed) == Total(RecordedIn(was), listed)
            && Total(MissingIn(files, m), listed) == Total(LostSince(was, files), listed)
            && Total(MismatchIn(files, m, sum), listed) == |Ones(MismatchIn(files, m, sum), listed)|
  {
    var m := ManifestsOf(was, sum);
    forall p | p in listed
      ensures KnownIn(files, m)(p) == RecordedIn(was)(p) && MissingIn(files, m)(p) == LostSince(was, files)(p)
    {
      FiguresSince(was, files, sum, p);
    }
    TotalAgrees(KnownIn(files, m), RecordedIn(was), listed);
    TotalAgrees(MissingIn(files, m), LostSince(was, files), listed);
    TotalOfOnes(MismatchIn(files, m, sum), listed);
  }

  lemma SomethingIsLost(was: Files, files: Files, listed: seq<ShardPath>)
    requires forall p :: p in listed ==> p in files
    ensures Total(LostSince(was, files), listed) > 0 <==> exists p :: p in listed && p in was && Count(files[p]) < Count(was[p])
  {
    TotalIsPositive(LostSince(was, files), listed);
    forall p | p in listed
      ensures LostSince(was, files)(p) > 0 <==> p in was && Count(files[p]) < Count(was[p])
    {
    }
  }

  lemma ChangedAre(was: Files, files: Files, sum: Digest, listed: seq<ShardPath>)
    requires WellWritten(was) && WellWritten(files) && IsListing(listed, files)
    requires forall b :: sum(b) != ""
    ensures Ones(MismatchIn(files, ManifestsOf(was, sum), sum), listed) == set p | p in listed && p in was && sum(files[p]) != sum(was[p])
  {
    forall p | p in listed
      ensures MismatchIn(files, ManifestsOf(was, sum), sum)(p) == 1 <==> p in was && sum(files[p]) != sum(was[p])
    {
      FiguresSince(was, files, sum, p);
    }
  }

  /** A report over well-written files against a manifest made from well-written files, whatever
      became of the files in between. The index count is what the listed files held when they
      were recorded; records are missing if and only if some listed file holds fewer than then,
      and as many as all such files have lost; and the checksum differs of exactly the files
      whose digest does. */
  lemma ReportAfterAnyChange(was: Files, files: Files, sum: Digest, listed: seq<ShardPath>)
    requires WellWritten(was) && WellWritten(files) && IsListing(listed, files)
    requires forall b :: sum(b) != ""
    ensures var m := ManifestsOf(was, sum);
            && Total(KnownIn(files, m), listed) == Total(RecordedIn(was), listed)
            && Total(MissingIn(files, m), listed) == Total(LostSince(was, files), listed)
            && (Total(MissingIn(files, m), listed) > 0 <==> exists p :: p in listed && p in was && Count(files[p]) < Count(was[p]))
            && Total(MismatchIn(files, m, sum), listed) == |set p | p in listed && p in was && sum(files[p]) != sum(was[p])|
  {
    SumsSince(was, files, sum, listed);
    SomethingIsLost(was, files, listed);
    ChangedAre(was, files, sum, listed);
  }

  /** A file that cannot be read adds nothing to any figure, and one that could not be read when it
      was recorded counts as orphaned as a whole and never as changed. */
  lemma UnreadableFiles(was: Files, files: Files, m: Manifests, sum: Digest, p: ShardPath)
    requires p in files
    ensures Scan(files[p]).TooLong? ==>
              Known(files, m, p) == 0 && Orphans(files, m, p) == 0 && Missing(files, m, p) == 0 && Mismatch(files, m, sum, p) == 0
    ensures p in was && p.index == 0 && Scan(was[p]).TooLong? && Scan(files[p]).Records? ==>
              var w := ManifestsOf(was, sum);
              && Known(files, w, p) == 0 && Orphans(files, w, p) == |Scan(files[p]).records|
              && Missing(files, w, p) == 0 && Mismatch(files, w, sum, p) == 0
  {
  }

  /** The count of a well-written file is the number of records it was made of. */
  lemma CountOfRecords(rs: seq<Bytes>)
    requires forall r :: r in rs ==> Clean(r)
    ensures Count(Encode(rs)) == |rs|
  {
    CleanRoundTrip(rs);
  }

  function Copies(record: Bytes, n: nat): (rs: seq<Bytes>)
    ensures |rs| == n && forall r :: r in rs ==> r == record
  {
    if n == 0 then [] else Copies(record, n - 1) + [record]
  }

  lemma CopiesAreWritten(a: byte, n: nat, p: ShardPath)
    requires a != NEWLINE && a != RETURN
    ensures WellWritten(map[p := Encode(Copies([a], n))]) && Count(Encode(Copies([a], n))) == n
  {
    CountOfRecords(Copies([a], n));
    assert CleanEncoding(Encode(Copies([a], n)), Copies([a], n));
  }

  /** The manifest says three records and the file holds two of them. */
  method LossIsReported(a: byte, sum: Digest) returns (report: Report)
    requires a != NEWLINE && a != RETURN && forall b :: sum(b) != ""
    requires sum(Encode(Copies([a], 3))) != sum(Encode(Copies([a], 2)))
    ensures report.shardCount == 1 && report.indexCount == 3 && report.orphaned == 0 && report.missing == 1 && report.mismatches == 1
  {
    var p := ShardPath("items", "day", 0);
    var was, files: Files := map[p := Encode(Copies([a], 3))], map[p := Encode(Copies([a], 2))];
    CopiesAreWritten(a, 3, p);
    CopiesAreWritten(a, 2, p);
    var catalog := new Catalog();
    catalog.RebuildManifests(was, [p], sum);
    report := catalog.Reconcile(files, [p], sum);
    OneFileReport(was, files, sum, p);
  }

  lemma OneFile(f: ShardPath -> nat, p: ShardPath)
    ensures Total(f, [p]) == f(p)
  {
    TotalStep(f, [p], 0);
    assert [p][..1] == [p];
  }

  lemma OneFileReport(was: Files, files: Files, sum: Digest, p: ShardPath)
    requires WellWritten(was) && WellWritten(files) && was.Keys == {p} && files.Keys == {p} && p.index == 0
    requires (forall b :: sum(b) != "") && sum(files[p]) != sum(was[p]) && Count(files[p]) < Count(was[p])
    ensures var m := ManifestsOf(was, sum);
            && Total(KnownIn(files, m), [p]) == Count(was[p]) && Total(RecordsIn(files), [p]) == Count(files[p])
            && Total(OrphansIn(files, m), [p]) == 0 && Total(MissingIn(files, m), [p]) == Count(was[p]) - Count(files[p])
            && Total(MismatchIn(files, m, sum), [p]) == 1
  {
    var m := ManifestsOf(was, sum);
    FiguresSince(was, files, sum, p);
    OneFile(KnownIn(files, m), p);
    OneFile(RecordsIn(files), p);
    OneFile(OrphansIn(files, m), p);
    OneFile(MissingIn(files, m), p);
    OneFile(MismatchIn(files, m, sum), p);
  }
}
