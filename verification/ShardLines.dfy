/** The line format of a shard file: what the writer puts on disk for one record
    and what the scanner-based reader gets back. */
module ShardLines {

  newtype byte = x: int | 0 <= x < 256

  type Bytes = seq<byte>

  const NEWLINE: byte := 10
  const RETURN: byte := 13

  // A scanner whose buffer may grow to this size gives up on a line that fills it.
  const MAX_TOKEN := 16 * 1024 * 1024

  datatype ReadResult = Records(records: seq<Bytes>) | TooLong

  /** Position of the first newline, or the length when there is none. */
  function LineEnd(b: Bytes): (i: nat)
    ensures i <= |b|
    ensures NEWLINE !in b[..i]
    ensures i < |b| ==> b[i] == NEWLINE
  {
    if b == [] || b[0] == NEWLINE then 0 else 1 + LineEnd(b[1..])
  }

  /** What is left after the first line and its newline. */
  function Tail(b: Bytes): (t: Bytes)
    ensures b != [] ==> |t| < |b|
  {
    var i := LineEnd(b);
    if i == |b| then [] else b[i + 1..]
  }

  function DropReturn(line: Bytes): Bytes {
    if line != [] && line[|line| - 1] == RETURN then line[..|line| - 1] else line
  }

  /** The records a scan of the whole file yields: empty lines are skipped and one
      line that does not fit the buffer spoils the file. */
  function Scan(b: Bytes): ReadResult
    decreases |b|
  {
    if b == [] then Records([])
    else if LineEnd(b) >= MAX_TOKEN then TooLong
    else Prepend(DropReturn(b[..LineEnd(b)]), Scan(Tail(b)))
  }

  function Prepend(line: Bytes, rest: ReadResult): ReadResult {
    match rest
    case TooLong => TooLong
    case Records(rs) => Records(if line == [] then rs else [line] + rs)
  }

  function Line(record: Bytes): Bytes {
    record + [NEWLINE]
  }

  /** File contents after appending the records in order. */
  function Encode(records: seq<Bytes>): Bytes {
    if records == [] then [] else Encode(records[..|records| - 1]) + Line(records[|records| - 1])
  }

  lemma {:induction false} EncodeConcat(a: seq<Bytes>, b: seq<Bytes>)
    ensures Encode(a + b) == Encode(a) + Encode(b)
  {
    if b == [] {
      assert a + b == a;
    } else {
      assert (a + b)[..|a + b| - 1] == a + b[..|b| - 1];
      EncodeConcat(a, b[..|b| - 1]);
    }
  }

  lemma EncodeCons(record: Bytes, rest: seq<Bytes>)
    ensures Encode([record] + rest) == Line(record) + Encode(rest)
  {
    EncodeConcat([record], rest);
    assert Encode([record]) == Line(record) by {
      assert [record][..0] == [];
      assert Encode([]) + Line(record) == Line(record);
    }
  }

  /** A record that survives a write followed by a read. */
  predicate Clean(record: Bytes) {
    && record != []
    && NEWLINE !in record
    && record[|record| - 1] != RETURN
    && |record| < MAX_TOKEN
  }

  lemma {:induction false} LineEndAt(record: Bytes, rest: Bytes)
    requires NEWLINE !in record
    ensures LineEnd(Line(record) + rest) == |record|
    ensures Tail(Line(record) + rest) == rest
    ensures (Line(record) + rest)[..|record|] == record
  {
    var b := Line(record) + rest;
    assert b[|record|] == NEWLINE;
    assert forall k :: 0 <= k < |record| ==> b[k] == record[k] && record[k] in record;
    assert forall k :: 0 <= k < LineEnd(b) ==> b[k] == b[..LineEnd(b)][k] && b[k] in b[..LineEnd(b)];
  }

  /** A scan takes the first line off and goes on with the rest. */
  lemma ScanLine(record: Bytes, rest: Bytes)
    requires NEWLINE !in record && |record| < MAX_TOKEN
    ensures Scan(Line(record) + rest) == Prepend(DropReturn(record), Scan(rest))
  {
    LineEndAt(record, rest);
    assert Line(record) + rest != [];
  }

  /** What comes back of records without newlines that fit the buffer: each but its final
      carriage return, if anything is left of it. */
  function Kept(records: seq<Bytes>): ReadResult {
    if records == [] then Records([]) else Prepend(DropReturn(records[0]), Kept(records[1..]))
  }

  lemma {:induction false} ScanFindsKept(records: seq<Bytes>)
    requires forall r :: r in records ==> NEWLINE !in r && |r| < MAX_TOKEN
    ensures Scan(Encode(records)) == Kept(records)
  {
    if records != [] {
      var r, rest := records[0], records[1..];
      assert records == [r] + rest;
      EncodeCons(r, rest);
      ScanLine(r, Encode(rest));
      ScanFindsKept(rest);
    }
  }

  lemma {:induction false} CleanAreKept(records: seq<Bytes>)
    requires forall r :: r in records ==> Clean(r)
    ensures Kept(records) == Records(records)
  {
    if records != [] {
      assert Clean(records[0]);
      CleanAreKept(records[1..]);
    }
  }

  lemma CleanRoundTrip(records: seq<Bytes>)
    requires forall r :: r in records ==> Clean(r)
    ensures Scan(Encode(records)) == Records(records)
  {
    ScanFindsKept(records);
    CleanAreKept(records);
  }

  /** One record that fills the scanner's buffer spoils the whole file, and nothing else does. */
  lemma {:induction false} TooLongExactly(records: seq<Bytes>)
    requires forall r :: r in records ==> NEWLINE !in r
    ensures Scan(Encode(records)).TooLong? <==> exists r :: r in records && |r| >= MAX_TOKEN
  {
    if records != [] {
      var r, rest := records[0], records[1..];
      assert records == [r] + rest;
      EncodeCons(r, rest);
      TooLongExactly(rest);
      if |r| < MAX_TOKEN {
        ScanLine(r, Encode(rest));
      } else {
        LineEndAt(r, Encode(rest));
      }
    }
  }

  // The converse: a record list that comes back unchanged was clean.

  lemma {:induction false} ScannedShape(b: Bytes)
    ensures Scan(b).Records? ==> forall r :: r in Scan(b).records ==> r != [] && NEWLINE !in r && |r| < MAX_TOKEN
    decreases |b|
  {
    if b != [] {
      ScannedShape(Tail(b));
    }
  }

  function TotalLength(records: seq<Bytes>): nat {
    if records == [] then 0 else |records[0]| + TotalLength(records[1..])
  }

  lemma TotalOfPrepend(line: Bytes, rest: ReadResult)
    requires rest.Records?
    ensures TotalLength(Prepend(line, rest).records) == |line| + TotalLength(rest.records)
  {
    assert ([line] + rest.records)[1..] == rest.records;
  }

  lemma {:induction false} KeptIsNoLonger(records: seq<Bytes>)
    ensures Kept(records).Records? && TotalLength(Kept(records).records) <= TotalLength(records)
  {
    if records != [] {
      KeptIsNoLonger(records[1..]);
      TotalOfPrepend(DropReturn(records[0]), Kept(records[1..]));
    }
  }

  lemma {:induction false} ReturnsAreLost(records: seq<Bytes>, i: nat)
    requires i < |records| && records[i] != [] && records[i][|records[i]| - 1] == RETURN
    ensures Kept(records).Records? && TotalLength(Kept(records).records) < TotalLength(records)
  {
    KeptIsNoLonger(records[1..]);
    if i > 0 {
      ReturnsAreLost(records[1..], i - 1);
    }
    TotalOfPrepend(DropReturn(records[0]), Kept(records[1..]));
  }

  /** Writing records and reading the file back gives the same records exactly when
      each is non-empty, free of newlines, without a final carriage return and
      shorter than the scanner's buffer. */
  lemma {:induction false} RoundTrip(records: seq<Bytes>)
    ensures Scan(Encode(records)) == Records(records) <==> forall r :: r in records ==> Clean(r)
  {
    if forall r :: r in records ==> Clean(r) {
      CleanRoundTrip(records);
    }
    if Scan(Encode(records)) == Records(records) {
      ScannedShape(Encode(records));
      ScanFindsKept(records);
      forall i | 0 <= i < |records|
        ensures records[i][|records[i]| - 1] != RETURN
      {
        if records[i][|records[i]| - 1] == RETURN {
          ReturnsAreLost(records, i);
        }
      }
    }
  }
}
