/** Times as the index stores them: text in the nanosecond form of RFC 3339, compared
    byte by byte by SQL. When does the order of the texts agree with the order in time? */
module TimeText {
  import opened Common

  // ---------------------------------------------------------------- text order

  predicate TextLess(a: string, b: string) {
    b != [] && (a == [] || a[0] < b[0] || (a[0] == b[0] && TextLess(a[1..], b[1..])))
  }

  lemma {:induction false} TextLessPrefix(p: string, q: string, a: string, b: string)
    requires |p| == |q|
    ensures TextLess(p + a, q + b) <==> TextLess(p, q) || (p == q && TextLess(a, b))
  {
    if p == [] {
      assert p + a == a && q + b == b;
    } else {
      assert (p + a)[1..] == p[1..] + a && (q + b)[1..] == q[1..] + b;
      assert p == [p[0]] + p[1..] && q == [q[0]] + q[1..];
      TextLessPrefix(p[1..], q[1..], a, b);
    }
  }

  lemma {:induction false} TextLessIrreflexive(a: string)
    ensures !TextLess(a, a)
  {
    if a != [] {
      TextLessIrreflexive(a[1..]);
    }
  }

  lemma {:induction false} TextLessTotal(a: string, b: string)
    ensures TextLess(a, b) || TextLess(b, a) || a == b
    ensures !(TextLess(a, b) && TextLess(b, a))
  {
    if a != [] && b != [] {
      assert a == [a[0]] + a[1..] && b == [b[0]] + b[1..];
      TextLessTotal(a[1..], b[1..]);
    }
  }

  // ---------------------------------------------------------------- digits

  function Power10(w: nat): nat {
    if w == 0 then 1 else 10 * Power10(w - 1)
  }

  predicate Digits(s: string) {
    forall i :: 0 <= i < |s| ==> '0' <= s[i] <= '9'
  }

  /** n in base ten with exactly w digits. */
  function Padded(n: nat, w: nat): (s: string)
    requires n < Power10(w)
    ensures |s| == w
    ensures Digits(s)
  {
    if w == 0 then [] else Padded(n / 10, w - 1) + [Digit(n % 10)]
  }

  lemma {:induction false} PaddedOrder(m: nat, n: nat, w: nat)
    requires m < Power10(w) && n < Power10(w)
    ensures TextLess(Padded(m, w), Padded(n, w)) <==> m < n
    ensures Padded(m, w) == Padded(n, w) <==> m == n
  {
    if w > 0 {
      PaddedOrder(m / 10, n / 10, w - 1);
      var p, q := Padded(m / 10, w - 1), Padded(n / 10, w - 1);
      var a, b := [Digit(m % 10)], [Digit(n % 10)];
      TextLessPrefix(p, q, a, b);
      assert TextLess(a, b) <==> a[0] < b[0];
      assert p + a == q + b ==> p == (p + a)[..w - 1] == (q + b)[..w - 1] == q && a[0] == (p + a)[w - 1] == (q + b)[w - 1] == b[0];
    }
  }

  // ---------------------------------------------------------------- fractions

  predicate AllZero(s: string) {
    forall i :: 0 <= i < |s| ==> s[i] == '0'
  }

  /** A digit string without its final zeros. */
  function Trimmed(s: string): string {
    if AllZero(s) then "" else [s[0]] + Trimmed(s[1..])
  }

  lemma {:induction false} ZerosComeFirst(a: string, b: string)
    requires |a| == |b| && AllZero(a) && Digits(b)
    ensures TextLess(a, b) <==> !AllZero(b)
    ensures !TextLess(b, a)
  {
    if a != [] {
      assert AllZero(b) <==> b[0] == '0' && AllZero(b[1..]) by {
        assert b == [b[0]] + b[1..];
      }
      ZerosComeFirst(a[1..], b[1..]);
    }
  }

  /** Dropping final zeros keeps the order of equally long digit strings. */
  lemma {:induction false} TrimmedOrder(a: string, b: string)
    requires |a| == |b| && Digits(a) && Digits(b)
    ensures TextLess(Trimmed(a), Trimmed(b)) <==> TextLess(a, b)
    ensures Trimmed(a) == Trimmed(b) ==> a == b
  {
    if AllZero(a) {
      ZerosComeFirst(a, b);
    } else if AllZero(b) {
      ZerosComeFirst(b, a);
    } else {
      assert a == [a[0]] + a[1..] && b == [b[0]] + b[1..];
      assert Trimmed(a)[1..] == Trimmed(a[1..]) && Trimmed(b)[1..] == Trimmed(b[1..]);
      TrimmedOrder(a[1..], b[1..]);
    }
  }

  lemma {:induction false} TrimmedDigits(s: string)
    requires Digits(s)
    ensures Digits(Trimmed(s))
  {
    if !AllZero(s) {
      TrimmedDigits(s[1..]);
    }
  }

  /** The optional fraction of a second. */
  function Fraction(nanos: nat): string
    requires nanos < Power10(9)
  {
    if nanos == 0 then "" else "." + Trimmed(Padded(nanos, 9))
  }

  lemma {:induction false} ZeroPadded(n: nat, w: nat)
    requires n < Power10(w)
    ensures AllZero(Padded(n, w)) <==> n == 0
  {
    if w > 0 {
      ZeroPadded(n / 10, w - 1);
      var high, low := Padded(n / 10, w - 1), [Digit(n % 10)];
      assert AllZero(high + low) <==> AllZero(high) && low[0] == '0' by {
        assert forall i :: 0 <= i < w - 1 ==> (high + low)[i] == high[i];
        assert (high + low)[w - 1] == low[0];
      }
    }
  }

  lemma FractionOrder(m: nat, n: nat)
    requires m < Power10(9) && n < Power10(9)
    ensures TextLess(Fraction(m), Fraction(n)) <==> m < n
    ensures Fraction(m) == Fraction(n) <==> m == n
  {
    var a, b := Padded(m, 9), Padded(n, 9);
    PaddedOrder(m, n, 9);
    TrimmedOrder(a, b);
    ZeroPadded(m, 9);
    ZeroPadded(n, 9);
    if m > 0 && n > 0 {
      TextLessPrefix(".", ".", Trimmed(a), Trimmed(b));
      assert !TextLess(".", ".") by { TextLessIrreflexive("."); }
      assert Fraction(m)[1..] == Trimmed(a) && Fraction(n)[1..] == Trimmed(b);
    }
  }

  // ---------------------------------------------------------------- what follows the fraction

  predicate ProperPrefix(a: string, b: string) {
    |a| < |b| && b[..|a|] == a
  }

  lemma PrefixOfTails(a: string, b: string)
    requires a != [] && b != []
    ensures ProperPrefix(a, b) <==> a[0] == b[0] && ProperPrefix(a[1..], b[1..])
  {
    if |a| < |b| {
      assert a == [a[0]] + a[1..];
      assert b[..|a|] == [b[0]] + b[1..][..|a| - 1];
      assert [a[0]] + a[1..] == [b[0]] + b[1..][..|a| - 1] ==> a[1..] == ([a[0]] + a[1..])[1..] == ([b[0]] + b[1..][..|a| - 1])[1..];
    }
  }

  lemma EndingAfterNothing(b: string, z: string)
    requires z != "" && b != [] && b[0] != z[0]
    ensures TextLess(z, b + z) <==> z[0] < b[0]
    ensures TextLess(b + z, z) <==> b[0] < z[0]
  {
    assert (b + z)[0] == b[0];
  }

  /** How a common ending moves the order: only a string that is a proper prefix of the
      other is compared by the first character of the ending. */
  lemma {:induction false} CommonEnding(a: string, b: string, z: string)
    requires z != ""
    requires forall i :: 0 <= i < |a| ==> a[i] != z[0]
    requires forall i :: 0 <= i < |b| ==> b[i] != z[0]
    ensures TextLess(a + z, b + z) <==>
            if ProperPrefix(a, b) then z[0] < b[|a|]
            else if ProperPrefix(b, a) then a[|b|] < z[0]
            else TextLess(a, b)
  {
    if a == [] && b == [] {
      assert a + z == z && b + z == z;
      TextLessIrreflexive(z);
    } else if a == [] {
      assert a + z == z;
      EndingAfterNothing(b, z);
    } else if b == [] {
      assert b + z == z;
      EndingAfterNothing(a, z);
    } else {
      assert (a + z)[1..] == a[1..] + z && (b + z)[1..] == b[1..] + z;
      PrefixOfTails(a, b);
      PrefixOfTails(b, a);
      if a[0] == b[0] {
        CommonEnding(a[1..], b[1..], z);
      }
    }
  }

  // ---------------------------------------------------------------- times

  // UTC is written as Z, any other offset as hours and minutes east or west.
  datatype Zone = Utc | East(hours: nat, minutes: nat) | West(hours: nat, minutes: nat)

  datatype Moment = Moment(year: nat, month: nat, day: nat, hour: nat, minute: nat, second: nat, nanos: nat, zone: Zone)

  /** Four-digit years and fields that fit their columns. */
  predicate InRange(t: Moment) {
    && t.year < 10000 && t.month < 100 && t.day < 100
    && t.hour < 100 && t.minute < 100 && t.second < 100
    && t.nanos < 1_000_000_000
    && (!t.zone.Utc? ==> t.zone.hours < 100 && t.zone.minutes < 100)
  }

  lemma Powers()
    ensures Power10(2) == 100 && Power10(4) == 10000 && Power10(9) == 1_000_000_000
  {
  }

  function Two(n: nat): string
    requires n < 100
  {
    Powers();
    Padded(n, 2)
  }

  function ZoneText(z: Zone): (s: string)
    requires !z.Utc? ==> z.hours < 100 && z.minutes < 100
    ensures s != ""
  {
    match z
    case Utc => "Z"
    case East(h, m) => "+" + Two(h) + ":" + Two(m)
    case West(h, m) => "-" + Two(h) + ":" + Two(m)
  }

  function DateText(t: Moment): string
    requires InRange(t)
  {
    Powers();
    Padded(t.year, 4) + ("-" + (Two(t.month) + ("-" + Two(t.day))))
  }

  function ClockText(t: Moment): string
    requires InRange(t)
  {
    Two(t.hour) + (":" + (Two(t.minute) + (":" + Two(t.second))))
  }

  function Format(t: Moment): string
    requires InRange(t)
  {
    Powers();
    DateText(t) + ("T" + (ClockText(t) + (Fraction(t.nanos) + ZoneText(t.zone))))
  }

  function DateNumber(t: Moment): int {
    (t.year * 100 + t.month) * 100 + t.day
  }

  function ClockNumber(t: Moment): int {
    (t.hour * 100 + t.minute) * 100 + t.second
  }

  /** Chronological order of two times of one offset. */
  predicate Before(a: Moment, b: Moment) {
    || DateNumber(a) < DateNumber(b)
    || (DateNumber(a) == DateNumber(b) && ClockNumber(a) < ClockNumber(b))
    || (SameSecond(a, b) && a.nanos < b.nanos)
  }

  predicate SameSecond(a: Moment, b: Moment) {
    DateNumber(a) == DateNumber(b) && ClockNumber(a) == ClockNumber(b)
  }

  /** Three fixed-width fields with separators compare like the tuple of their values. */
  lemma ThreeFields(p: string, q: string, r: string, p': string, q': string, r': string, sep: string)
    requires |p| == |p'| && |q| == |q'| && |r| == |r'|
    ensures TextLess(p + (sep + (q + (sep + r))), p' + (sep + (q' + (sep + r')))) <==>
            TextLess(p, p') || (p == p' && (TextLess(q, q') || (q == q' && TextLess(r, r'))))
  {
    TextLessPrefix(p, p', sep + (q + (sep + r)), sep + (q' + (sep + r')));
    TextLessPrefix(sep, sep, q + (sep + r), q' + (sep + r'));
    TextLessPrefix(q, q', sep + r, sep + r');
    TextLessPrefix(sep, sep, r, r');
    TextLessIrreflexive(sep);
  }

  lemma TwoOrder(m: nat, n: nat)
    requires m < 100 && n < 100
    ensures TextLess(Two(m), Two(n)) <==> m < n
    ensures Two(m) == Two(n) <==> m == n
    ensures |Two(m)| == 2
  {
    Powers();
    PaddedOrder(m, n, 2);
  }

  lemma DateOrder(a: Moment, b: Moment)
    requires InRange(a) && InRange(b)
    ensures |DateText(a)| == 10
    ensures TextLess(DateText(a), DateText(b)) <==> DateNumber(a) < DateNumber(b)
  {
    Powers();
    PaddedOrder(a.year, b.year, 4);
    TwoOrder(a.month, b.month);
    TwoOrder(a.day, b.day);
    ThreeFields(Padded(a.year, 4), Two(a.month), Two(a.day), Padded(b.year, 4), Two(b.month), Two(b.day), "-");
  }

  lemma SameDate(a: Moment, b: Moment)
    requires InRange(a) && InRange(b)
    ensures DateText(a) == DateText(b) <==> DateNumber(a) == DateNumber(b)
  {
    DateOrder(a, b);
    DateOrder(b, a);
    TextLessTotal(DateText(a), DateText(b));
    TextLessIrreflexive(DateText(a));
  }

  lemma ClockOrder(a: Moment, b: Moment)
    requires InRange(a) && InRange(b)
    ensures |ClockText(a)| == 8
    ensures TextLess(ClockText(a), ClockText(b)) <==> ClockNumber(a) < ClockNumber(b)
  {
    TwoOrder(a.hour, b.hour);
    TwoOrder(a.minute, b.minute);
    TwoOrder(a.second, b.second);
    ThreeFields(Two(a.hour), Two(a.minute), Two(a.second), Two(b.hour), Two(b.minute), Two(b.second), ":");
  }

  lemma SameClock(a: Moment, b: Moment)
    requires InRange(a) && InRange(b)
    ensures ClockText(a) == ClockText(b) <==> ClockNumber(a) == ClockNumber(b)
  {
    ClockOrder(a, b);
    ClockOrder(b, a);
    TextLessTotal(ClockText(a), ClockText(b));
    TextLessIrreflexive(ClockText(a));
  }

  /** The case in which the text order is the wrong way round: two times of one second
      in UTC, the fraction of one beginning with the whole fraction of the other. */
  predicate Misordered(a: Moment, b: Moment)
    requires InRange(a) && InRange(b)
  {
    Powers();
    && a.zone.Utc?
    && SameSecond(a, b)
    && (ProperPrefix(Fraction(a.nanos), Fraction(b.nanos)) || ProperPrefix(Fraction(b.nanos), Fraction(a.nanos)))
  }

  lemma PrefixIsLess(a: string, b: string)
    requires ProperPrefix(a, b)
    ensures TextLess(a, b) && !TextLess(b, a)
  {
  }

  lemma FractionChars(n: nat)
    requires n < Power10(9)
    ensures forall i :: 0 <= i < |Fraction(n)| ==> Fraction(n)[i] == '.' || '0' <= Fraction(n)[i] <= '9'
  {
    TrimmedDigits(Padded(n, 9));
  }

  /** Order of the parts after the seconds. */
  lemma TailOrder(m: nat, n: nat, z: Zone)
    requires m < Power10(9) && n < Power10(9)
    requires !z.Utc? ==> z.hours < 100 && z.minutes < 100
    ensures var f, g := Fraction(m), Fraction(n);
            TextLess(f + ZoneText(z), g + ZoneText(z)) <==>
            if z.Utc? && (ProperPrefix(f, g) || ProperPrefix(g, f)) then n < m else m < n
  {
    var f, g, t := Fraction(m), Fraction(n), ZoneText(z);
    FractionChars(m);
    FractionChars(n);
    assert t[0] == if z.Utc? then 'Z' else if z.East? then '+' else '-';
    CommonEnding(f, g, t);
    FractionOrder(m, n);
    if ProperPrefix(f, g) {
      PrefixIsLess(f, g);
    } else if ProperPrefix(g, f) {
      PrefixIsLess(g, f);
      FractionOrder(n, m);
    }
  }

  /** Order of two formatted times, field by field. */
  lemma FormatOrder(a: Moment, b: Moment)
    requires InRange(a) && InRange(b) && a.zone == b.zone
    ensures TextLess(Format(a), Format(b)) <==> if Misordered(a, b) then b.nanos < a.nanos else Before(a, b)
  {
    Powers();
    var tailA, tailB := Fraction(a.nanos) + ZoneText(a.zone), Fraction(b.nanos) + ZoneText(b.zone);
    DateOrder(a, b);
    ClockOrder(a, b);
    SameDate(a, b);
    SameClock(a, b);
    TailOrder(a.nanos, b.nanos, a.zone);
    TextLessPrefix(DateText(a), DateText(b), "T" + (ClockText(a) + tailA), "T" + (ClockText(b) + tailB));
    TextLessPrefix("T", "T", ClockText(a) + tailA, ClockText(b) + tailB);
    TextLessPrefix(ClockText(a), ClockText(b), tailA, tailB);
    TextLessIrreflexive("T");
  }

  /** Comparing stored texts of one offset is comparing times, except in the misordered
      case, and there it is exactly the reverse. */
  lemma TextOrderIsTimeOrder(a: Moment, b: Moment)
    requires InRange(a) && InRange(b) && a.zone == b.zone
    ensures TextLess(Format(a), Format(b)) <==> if Misordered(a, b) then Before(b, a) else Before(a, b)
    ensures (TextLess(Format(a), Format(b)) <==> Before(a, b)) <==> !Misordered(a, b)
    ensures Format(a) == Format(b) <==> SameSecond(a, b) && a.nanos == b.nanos
  {
    FormatOrder(a, b);
    FormatOrder(b, a);
    TextLessIrreflexive(Format(a));
    TextLessTotal(Format(a), Format(b));
    Powers();
    FractionOrder(a.nanos, b.nanos);
  }

  // ---------------------------------------------------------------- what the queries select

  /** The deadline condition of the overdue query, on the stored texts. */
  predicate OverdueInSql(deadline: Moment, now: Moment)
    requires InRange(deadline) && InRange(now)
  {
    TextLess(Format(deadline), Format(now))
  }

  /** The time window condition of the active-rules query; a missing end is NULL. */
  predicate ActiveInSql(from: Moment, to: Option<Moment>, at: Moment)
    requires InRange(from) && InRange(at) && (to.Some? ==> InRange(to.value))
  {
    !TextLess(Format(at), Format(from)) && (to.None? || TextLess(Format(at), Format(to.value)))
  }

  /** The same window as the adjudicator tests it. */
  predicate ActiveAt(from: Moment, to: Option<Moment>, at: Moment) {
    !Before(at, from) && (to.None? || Before(at, to.value))
  }

  /** The overdue query selects an item past its deadline, except in the misordered case,
      where it selects precisely those it should not. */
  lemma OverdueQueryExact(deadline: Moment, now: Moment)
    requires InRange(deadline) && InRange(now) && deadline.zone == now.zone
    ensures (OverdueInSql(deadline, now) <==> Before(deadline, now)) <==> !Misordered(deadline, now)
  {
    TextOrderIsTimeOrder(deadline, now);
  }

  /** The rule query and the adjudicator agree on a rule's window if and only if no bound is
      misordered with the queried time, or the bound that is does not matter: a misordered
      start when the window has ended, a misordered end when it has not begun, and both when
      the time lies outside. */
  lemma RuleQueryExact(from: Moment, to: Option<Moment>, at: Moment)
    requires InRange(from) && InRange(at) && from.zone == at.zone
    requires to.Some? ==> InRange(to.value) && to.value.zone == at.zone
    ensures (ActiveInSql(from, to, at) <==> ActiveAt(from, to, at)) <==>
            var begun, open := !Before(at, from), to.None? || Before(at, to.value);
            match (Misordered(at, from), to.Some? && Misordered(at, to.value))
            case (false, false) => true
            case (true, false) => !open
            case (false, true) => !begun
            case (true, true) => begun != open
  {
    TextOrderIsTimeOrder(at, from);
    if to.Some? {
      TextOrderIsTimeOrder(at, to.value);
    }
  }

  /** Half a second past a deadline on the full second, in UTC, the query does not see it. */
  lemma OverdueCanBeMissed()
    ensures var deadline := Moment(2024, 5, 1, 12, 0, 0, 0, Utc);
            var now := deadline.(nanos := 500_000_000);
            Before(deadline, now) && !OverdueInSql(deadline, now)
  {
    var deadline := Moment(2024, 5, 1, 12, 0, 0, 0, Utc);
    var now := deadline.(nanos := 500_000_000);
    Powers();
    assert ProperPrefix(Fraction(0), Fraction(500_000_000));
    TextOrderIsTimeOrder(deadline, now);
  }

  // ---------------------------------------------------------------- shard paths

  function MonthText(t: Moment): string
    requires InRange(t)
  {
    Powers();
    Padded(t.year, 4) + ("-" + Two(t.month))
  }

  /** Path of the shard a record of time t goes to, below the directory of its type. */
  function ShardFile(dir: string, t: Moment): string
    requires InRange(t)
  {
    dir + (MonthText(t) + ("/" + (DateText(t) + ".jsonl")))
  }

  lemma MonthOrder(a: Moment, b: Moment)
    requires InRange(a) && InRange(b)
    ensures |MonthText(a)| == 7
    ensures TextLess(MonthText(a), MonthText(b)) <==> a.year * 100 + a.month < b.year * 100 + b.month
  {
    Powers();
    PaddedOrder(a.year, b.year, 4);
    TwoOrder(a.month, b.month);
    TextLessPrefix(Padded(a.year, 4), Padded(b.year, 4), "-" + Two(a.month), "-" + Two(b.month));
    TextLessPrefix("-", "-", Two(a.month), Two(b.month));
    TextLessIrreflexive("-");
  }

  /** Sorting shard files of one type by path sorts them by date. */
  lemma PathOrderIsDateOrder(dir: string, a: Moment, b: Moment)
    requires InRange(a) && InRange(b)
    ensures TextLess(ShardFile(dir, a), ShardFile(dir, b)) <==> DateNumber(a) < DateNumber(b)
  {
    MonthOrder(a, b);
    MonthOrder(b, a);
    DateOrder(a, b);
    SameDate(a, b);
    var tailA, tailB := DateText(a) + ".jsonl", DateText(b) + ".jsonl";
    TextLessPrefix(dir, dir, MonthText(a) + ("/" + tailA), MonthText(b) + ("/" + tailB));
    TextLessIrreflexive(dir);
    TextLessPrefix(MonthText(a), MonthText(b), "/" + tailA, "/" + tailB);
    TextLessPrefix("/", "/", tailA, tailB);
    TextLessIrreflexive("/");
    TextLessPrefix(DateText(a), DateText(b), ".jsonl", ".jsonl");
    TextLessIrreflexive(".jsonl");
    TextLessTotal(MonthText(a), MonthText(b));
  }
}
