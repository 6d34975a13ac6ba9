// The timestamp text of the database layer, `%Y-%m-%d %H:%M:%S` in UTC: how it
// orders, and how it reads back.
module Timestamps {
  import opened Wrappers

  /** A proleptic Gregorian UTC date and time. */
  datatype DateTime = DateTime(year: int, month: int, day: int, hour: int, minute: int, second: int, nanos: nat)
  {
    predicate Valid() {
      && 1 <= month <= 12 && 1 <= day <= DaysInMonth(year, month)
      && 0 <= hour < 24 && 0 <= minute < 60 && 0 <= second < 60 && nanos < 1_000_000_000
    }

    /** Whole seconds since 1970-01-01 00:00:00 UTC. */
    function Unix(): int {
      86400 * (DayNumber(year, month, day) - DayNumber(1970, 1, 1)) + 3600 * hour + 60 * minute + second
    }

    function Truncated(): DateTime { this.(nanos := 0) }
  }

  lemma TruncationKeepsSeconds(t: DateTime)
    ensures t.Truncated().Unix() == t.Unix()
  {
  }

  // --------------------------------------------------------------- calendar

  predicate Leap(y: int) { y % 4 == 0 && (y % 100 != 0 || y % 400 == 0) }

  function YearLength(y: int): int { if Leap(y) then 366 else 365 }

  function DaysInMonth(y: int, m: int): int {
    if m == 2 then (if Leap(y) then 29 else 28)
    else if m == 4 || m == 6 || m == 9 || m == 11 then 30 else 31
  }

  /** Days from 0000-01-01 to the first of January of year `y`. */
  function DaysBeforeYear(y: int): int { 365 * y + (y - 1) / 4 - (y - 1) / 100 + (y - 1) / 400 }

  function DaysBeforeMonth(y: int, m: int): int
    requires 1 <= m
  {
    if m == 1 then 0 else DaysBeforeMonth(y, m - 1) + DaysInMonth(y, m - 1)
  }

  function DayNumber(y: int, m: int, d: int): int {
    DaysBeforeYear(y) + (if 1 <= m then DaysBeforeMonth(y, m) else 0) + d - 1
  }

  lemma DivStep(y: int, k: int)
    requires k == 4 || k == 100 || k == 400
    ensures y / k == (y - 1) / k + if y % k == 0 then 1 else 0
  {
  }

  lemma MultipleOf400(y: int)
    requires y % 400 == 0
    ensures y % 100 == 0
  {
    var m := 4 * (y / 400);
    assert y == 100 * m;
  }

  lemma MultipleOf100(y: int)
    requires y % 100 == 0
    ensures y % 4 == 0
  {
    var m := 25 * (y / 100);
    assert y == 4 * m;
  }

  /** The leap rule counts one leap day by divisibility alone. */
  lemma LeapDays(y: int)
    ensures One(Leap(y)) == One(y % 4 == 0) - One(y % 100 == 0) + One(y % 400 == 0)
  {
    if y % 400 == 0 {
      MultipleOf400(y);
    }
    if y % 100 == 0 {
      MultipleOf100(y);
    }
  }

  lemma {:induction false} YearStep(y: int)
    ensures DaysBeforeYear(y + 1) == DaysBeforeYear(y) + YearLength(y)
  {
    hide Leap;
    DivStep(y, 4);
    DivStep(y, 100);
    DivStep(y, 400);
    LeapDays(y);
    assert y + 1 - 1 == y;
  }

  lemma {:induction false} YearsAscend(a: int, b: int)
    requires a <= b
    ensures DaysBeforeYear(a) + 365 * (b - a) <= DaysBeforeYear(b)
    decreases b - a
  {
    if a < b {
      YearsAscend(a, b - 1);
      YearStep(b - 1);
    }
  }

  lemma {:induction false} MonthsAscend(y: int, m: int, n: int)
    requires 1 <= m < n
    ensures DaysBeforeMonth(y, m) + DaysInMonth(y, m) <= DaysBeforeMonth(y, n)
    decreases n
  {
    if m < n - 1 {
      MonthsAscend(y, m, n - 1);
    }
  }

  lemma YearSum(y: int)
    ensures DaysBeforeMonth(y, 12) + DaysInMonth(y, 12) == YearLength(y)
  {
    assert DaysBeforeMonth(y, 2) == 31;
    assert DaysBeforeMonth(y, 3) == 31 + DaysInMonth(y, 2);
    assert DaysBeforeMonth(y, 5) == DaysBeforeMonth(y, 4) + 30 == DaysBeforeMonth(y, 3) + 61;
    assert DaysBeforeMonth(y, 7) == DaysBeforeMonth(y, 6) + 30 == DaysBeforeMonth(y, 5) + 61;
    assert DaysBeforeMonth(y, 9) == DaysBeforeMonth(y, 8) + 31 == DaysBeforeMonth(y, 7) + 62;
    assert DaysBeforeMonth(y, 11) == DaysBeforeMonth(y, 10) + 31 == DaysBeforeMonth(y, 9) + 61;
    assert DaysBeforeMonth(y, 12) == DaysBeforeMonth(y, 11) + 30;
  }

  /** Earlier in year-month-day order means an earlier day number. */
  lemma {:induction false} DatesAscend(a: DateTime, b: DateTime)
    requires a.Valid() && b.Valid()
    requires a.year < b.year || (a.year == b.year && (a.month < b.month || (a.month == b.month && a.day < b.day)))
    ensures DayNumber(a.year, a.month, a.day) < DayNumber(b.year, b.month, b.day)
  {
    if a.year < b.year {
      YearSum(a.year);
      if a.month < 12 {
        MonthsAscend(a.year, a.month, 12);
      }
      YearStep(a.year);
      YearsAscend(a.year + 1, b.year);
      if 1 < b.month {
        MonthsAscend(b.year, 1, b.month);
      }
    } else if a.month < b.month {
      MonthsAscend(a.year, a.month, b.month);
    }
  }

  /** Earlier by the six text fields, most significant first. */
  predicate Earlier(a: DateTime, b: DateTime) {
    a.year < b.year || (a.year == b.year && EarlierInYear(a, b))
  }

  predicate EarlierInYear(a: DateTime, b: DateTime) {
    a.month < b.month || (a.month == b.month && (a.day < b.day || (a.day == b.day && EarlierInDay(a, b))))
  }

  predicate EarlierInDay(a: DateTime, b: DateTime) {
    a.hour < b.hour || (a.hour == b.hour && (a.minute < b.minute || (a.minute == b.minute && a.second < b.second)))
  }

  /** Field order is chronological order of the second-truncated instants. */
  lemma {:induction false} FieldsChronological(a: DateTime, b: DateTime)
    requires a.Valid() && b.Valid()
    ensures a.Unix() < b.Unix() <==> Earlier(a, b)
  {
    if a.year == b.year && a.month == b.month && a.day == b.day {
    } else if Earlier(a, b) {
      DatesAscend(a, b);
    } else {
      DatesAscend(b, a);
    }
  }

  // ------------------------------------------------------------------- text

  function Digit(n: int): char
    requires 0 <= n <= 9
  {
    (48 + n) as char
  }

  predicate IsDigit(c: char) { '0' <= c <= '9' }

  function Value(c: char): int
    requires IsDigit(c)
  {
    c as int - 48
  }

  function Two(n: int): (s: string)
    requires 0 <= n <= 99
  {
    [Digit(n / 10), Digit(n % 10)]
  }

  function Four(n: int): (s: string)
    requires 0 <= n <= 9999
  {
    Two(n / 100) + Two(n % 100)
  }

  function Decimal(n: nat): string {
    (if n < 10 then [] else Decimal(n / 10)) + [Digit(n % 10)]
  }

  /** `%Y`: four digits for years 0 to 9999, otherwise a sign and at least four. */
  function YearText(y: int): string {
    if 0 <= y <= 9999 then Four(y)
    else if y < 0 then "-" + (if -y <= 9999 then Four(-y) else Decimal(-y))
    else "+" + Decimal(y)
  }

  function ClockText(t: DateTime): string
    requires t.Valid()
  {
    Two(t.hour) + ":" + Two(t.minute) + ":" + Two(t.second)
  }

  function DayText(t: DateTime): string
    requires t.Valid()
  {
    "-" + Two(t.month) + "-" + Two(t.day) + " " + ClockText(t)
  }

  /** `fmt_utc` and `now_str`. */
  function Format(t: DateTime): string
    requires t.Valid()
  {
    YearText(t.year) + DayText(t)
  }

  /** Byte order of the stored text, as the SQL comparison sees it. */
  predicate TextLess(a: string, b: string) {
    b != [] && (a == [] || a[0] < b[0] || (a[0] == b[0] && TextLess(a[1..], b[1..])))
  }

  predicate TextLe(a: string, b: string) { a == b || TextLess(a, b) }

  lemma {:induction false} LessByParts(a: string, a': string, b: string, b': string)
    requires |a| == |b|
    ensures TextLess(a + a', b + b') <==> TextLess(a, b) || (a == b && TextLess(a', b'))
  {
    if a == [] {
      assert a + a' == a' && b + b' == b';
    } else {
      assert (a + a')[1..] == a[1..] + a' && (b + b')[1..] == b[1..] + b';
      LessByParts(a[1..], a', b[1..], b');
      assert a == b <==> a[0] == b[0] && a[1..] == b[1..];
    }
  }

  lemma NotLessSelf(a: string)
    ensures !TextLess(a, a)
  {
  }

  lemma TwoOrder(m: int, n: int)
    requires 0 <= m <= 99 && 0 <= n <= 99
    ensures TextLess(Two(m), Two(n)) <==> m < n
    ensures Two(m) == Two(n) <==> m == n
  {
    var m1, m2, n1, n2 := [Digit(m / 10)], [Digit(m % 10)], [Digit(n / 10)], [Digit(n % 10)];
    assert Two(m) == m1 + m2 && Two(n) == n1 + n2;
    LessByParts(m1, m2, n1, n2);
    assert m1[1..] == [] && n1[1..] == [] && m2[1..] == [] && n2[1..] == [];
    assert Two(m) == Two(n) ==> Two(m)[0] == Two(n)[0] && Two(m)[1] == Two(n)[1];
  }

  lemma FourOrder(m: int, n: int)
    requires 0 <= m <= 9999 && 0 <= n <= 9999
    ensures TextLess(Four(m), Four(n)) <==> m < n
    ensures Four(m) == Four(n) <==> m == n
  {
    LessByParts(Two(m / 100), Two(m % 100), Two(n / 100), Two(n % 100));
    TwoOrder(m / 100, n / 100);
    TwoOrder(m % 100, n % 100);
    if Four(m) == Four(n) {
      assert Four(m)[..2] == Two(m / 100) && Four(n)[..2] == Two(n / 100);
      assert Four(m)[2..] == Two(m % 100) && Four(n)[2..] == Two(n % 100);
    }
  }

  /** A separator between two parts does not affect the order. */
  lemma {:induction false} Separated(m: int, n: int, sep: string, a: string, b: string)
    requires 0 <= m <= 99 && 0 <= n <= 99 && |sep| == 1
    ensures TextLess(sep + Two(m) + a, sep + Two(n) + b) <==> m < n || (m == n && TextLess(a, b))
  {
    LessByParts(sep + Two(m), a, sep + Two(n), b);
    LessByParts(sep, Two(m), sep, Two(n));
    NotLessSelf(sep);
    TwoOrder(m, n);
    if sep + Two(m) == sep + Two(n) {
      assert (sep + Two(m))[1..] == Two(m) && (sep + Two(n))[1..] == Two(n);
    }
  }

  lemma {:induction false} ClockOrder(a: DateTime, b: DateTime)
    requires a.Valid() && b.Valid()
    ensures TextLess(" " + ClockText(a), " " + ClockText(b)) <==> EarlierInDay(a, b)
  {
    var sa, sb := ":" + Two(a.second) + "", ":" + Two(b.second) + "";
    var ma, mb := ":" + Two(a.minute) + sa, ":" + Two(b.minute) + sb;
    Separated(a.second, b.second, ":", "", "");
    Separated(a.minute, b.minute, ":", sa, sb);
    Separated(a.hour, b.hour, " ", ma, mb);
    assert " " + ClockText(a) == " " + Two(a.hour) + ma;
    assert " " + ClockText(b) == " " + Two(b.hour) + mb;
  }

  lemma {:induction false} DayOrder(a: DateTime, b: DateTime)
    requires a.Valid() && b.Valid()
    ensures TextLess(DayText(a), DayText(b)) <==> EarlierInYear(a, b)
  {
    ClockOrder(a, b);
    var da, db := "-" + Two(a.day) + (" " + ClockText(a)), "-" + Two(b.day) + (" " + ClockText(b));
    Separated(a.day, b.day, "-", " " + ClockText(a), " " + ClockText(b));
    Separated(a.month, b.month, "-", da, db);
    assert DayText(a) == "-" + Two(a.month) + da;
    assert DayText(b) == "-" + Two(b.month) + db;
  }

  /** For years 0 to 9999 the text orders as the instants do. */
  lemma {:induction false} TextIsChronological(a: DateTime, b: DateTime)
    requires a.Valid() && b.Valid() && 0 <= a.year <= 9999 && 0 <= b.year <= 9999
    ensures TextLess(Format(a), Format(b)) <==> a.Unix() < b.Unix()
    ensures TextLe(Format(a), Format(b)) <==> a.Unix() <= b.Unix()
  {
    LessAsInstants(a, b);
    LessAsInstants(b, a);
    LessTotal(Format(a), Format(b));
  }

  lemma {:induction false} LessAsInstants(a: DateTime, b: DateTime)
    requires a.Valid() && b.Valid() && 0 <= a.year <= 9999 && 0 <= b.year <= 9999
    ensures TextLess(Format(a), Format(b)) <==> a.Unix() < b.Unix()
  {
    FieldsChronological(a, b);
    FourOrder(a.year, b.year);
    LessByParts(YearText(a.year), DayText(a), YearText(b.year), DayText(b));
    DayOrder(a, b);
  }

  lemma {:induction false} LessTotal(a: string, b: string)
    ensures TextLess(a, b) || TextLess(b, a) || a == b
    ensures !(TextLess(a, b) && (TextLess(b, a) || a == b))
  {
    if a != [] && b != [] {
      LessTotal(a[1..], b[1..]);
      assert a == [a[0]] + a[1..] && b == [b[0]] + b[1..];
    }
  }

  /** The due test of the scheduler compares text. With the clock in years 0 to
      9999 it agrees with the instants exactly when the requested year is at
      most 9999; a later year prints with a plus sign and counts as due. */
  lemma {:induction false} DueTestExact(sendAt: DateTime, now: DateTime)
    requires sendAt.Valid() && now.Valid() && 0 <= now.year <= 9999
    ensures (TextLe(Format(sendAt), Format(now)) <==> sendAt.Unix() <= now.Unix()) <==> sendAt.year <= 9999
  {
    if 0 <= sendAt.year <= 9999 {
      TextIsChronological(sendAt, now);
    } else {
      FieldsChronological(sendAt, now);
      FieldsChronological(now, sendAt);
      assert Format(sendAt)[0] == YearText(sendAt.year)[0] && Format(now)[0] == Four(now.year)[0];
      assert Format(sendAt)[0] < '0' <= Format(now)[0];
    }
  }

  // ---------------------------------------------------------------- reading

  /** Reads at most `width` digits onto `acc`; returns the value and what is left. */
  function Scan(s: string, width: nat, acc: int): (int, string) {
    if width == 0 || s == [] || !IsDigit(s[0]) then (acc, s)
    else Scan(s[1..], width - 1, acc * 10 + Value(s[0]))
  }

  /** A number of one to `width` digits. */
  function ReadNumber(s: string, width: nat): Option<(int, string)> {
    if s == [] || !IsDigit(s[0]) || width == 0 then None else Some(Scan(s, width, 0))
  }

  function ReadLiteral(s: string, c: char): Option<string> {
    if s != [] && s[0] == c then Some(s[1..]) else None
  }

  /** `%Y`: a signed year takes any number of digits, an unsigned one at most four. */
  function ReadYear(s: string): Option<(int, string)> {
    if s != [] && s[0] == '-' then
      match ReadNumber(s[1..], |s|) case Some(r) => Some((-r.0, r.1)) case None => None
    else if s != [] && s[0] == '+' then ReadNumber(s[1..], |s|)
    else ReadNumber(s, 4)
  }

  /** A literal and a two-digit field. */
  function ReadField(s: string, sep: char): Option<(int, string)> {
    match ReadLiteral(s, sep) case Some(rest) => ReadNumber(rest, 2) case None => None
  }

  function ReadFields(s: string, seps: string): Option<(seq<int>, string)>
    decreases |seps|
  {
    if seps == [] then Some(([], s)) else
    match ReadField(s, seps[0])
    case None => None
    case Some(f) =>
      match ReadFields(f.1, seps[1..])
      case None => None
      case Some(r) => Some(([f.0] + r.0, r.1))
  }

  /** The first format of `parse_stored_ts`; the whole text must be used up and
      the date must exist. */
  function Parse(s: string): Option<DateTime> {
    match ReadYear(s)
    case None => None
    case Some(y) =>
      match ReadFields(y.1, "-- ::")
      case None => None
      case Some((f, rest)) =>
        if |f| != 5 || rest != [] then None else
        var t := DateTime(y.0, f[0], f[1], f[2], f[3], f[4], 0);
        if t.Valid() then Some(t) else None
  }

  /** The value of a digit string, read onto `acc`. */
  function Fold(s: string, acc: int): int
    requires forall i :: 0 <= i < |s| ==> IsDigit(s[i])
  {
    if s == [] then acc else Fold(s[1..], acc * 10 + Value(s[0]))
  }

  lemma {:induction false} ScanDigits(d: string, rest: string, width: nat, acc: int)
    requires forall i :: 0 <= i < |d| ==> IsDigit(d[i])
    requires |d| <= width && (|d| == width || rest == [] || !IsDigit(rest[0]))
    ensures Scan(d + rest, width, acc) == (Fold(d, acc), rest)
  {
    if d == [] {
      assert d + rest == rest;
    } else {
      assert (d + rest)[1..] == d[1..] + rest;
      ScanDigits(d[1..], rest, width - 1, acc * 10 + Value(d[0]));
    }
  }

  lemma {:induction false} FoldAppend(d: string, c: char, acc: int)
    requires IsDigit(c) && forall i :: 0 <= i < |d| ==> IsDigit(d[i])
    ensures forall i :: 0 <= i < |d + [c]| ==> IsDigit((d + [c])[i])
    ensures Fold(d + [c], acc) == Fold(d, acc) * 10 + Value(c)
  {
    if d == [] {
      assert (d + [c])[1..] == [];
    } else {
      assert (d + [c])[1..] == d[1..] + [c];
      FoldAppend(d[1..], c, acc * 10 + Value(d[0]));
    }
  }

  lemma {:induction false} DecimalFolds(n: nat)
    ensures Decimal(n) != [] && forall i :: 0 <= i < |Decimal(n)| ==> IsDigit(Decimal(n)[i])
    ensures Fold(Decimal(n), 0) == n
  {
    if n >= 10 {
      DecimalFolds(n / 10);
      FoldAppend(Decimal(n / 10), Digit(n % 10), 0);
    } else {
      assert Decimal(n) == [Digit(n)];
      assert Decimal(n)[1..] == [];
    }
  }

  lemma TwoFolds(n: int)
    requires 0 <= n <= 99
    ensures forall i :: 0 <= i < |Two(n)| ==> IsDigit(Two(n)[i])
    ensures Fold(Two(n), 0) == n
  {
    FoldAppend([Digit(n / 10)], Digit(n % 10), 0);
    assert [Digit(n / 10)] + [Digit(n % 10)] == Two(n);
    assert [Digit(n / 10)][1..] == [];
  }

  lemma FourFolds(n: int)
    requires 0 <= n <= 9999
    ensures forall i :: 0 <= i < |Four(n)| ==> IsDigit(Four(n)[i])
    ensures Fold(Four(n), 0) == n
  {
    TwoFolds(n / 100);
    var a := Two(n / 100);
    FoldAppend(a, Digit(n % 100 / 10), 0);
    FoldAppend(a + [Digit(n % 100 / 10)], Digit(n % 100 % 10), 0);
    assert a + [Digit(n % 100 / 10)] + [Digit(n % 100 % 10)] == Four(n);
  }

  lemma {:induction false} NumberReads(d: string, rest: string, width: nat)
    requires d != [] && forall i :: 0 <= i < |d| ==> IsDigit(d[i])
    requires |d| <= width && (|d| == width || rest == [] || !IsDigit(rest[0]))
    ensures ReadNumber(d + rest, width) == Some((Fold(d, 0), rest))
  {
    assert (d + rest)[0] == d[0];
    ScanDigits(d, rest, width, 0);
  }

  lemma {:induction false} YearReads(y: int, rest: string)
    requires rest != [] && !IsDigit(rest[0])
    ensures ReadYear(YearText(y) + rest) == Some((y, rest))
  {
    if 0 <= y <= 9999 {
      FourFolds(y);
      NumberReads(Four(y), rest, 4);
      assert (YearText(y) + rest)[0] == Four(y)[0];
    } else {
      SignedYearReads(y, rest);
    }
  }

  lemma {:induction false} SignedYearReads(y: int, rest: string)
    requires !(0 <= y <= 9999) && rest != [] && !IsDigit(rest[0])
    ensures ReadYear(YearText(y) + rest) == Some((y, rest))
  {
    hide ReadNumber, Decimal, Four;
    var sign, d := YearText(y)[0], YearText(y)[1..];
    var n := if y < 0 then -y else y;
    if n <= 9999 {
      FourFolds(n);
      assert d == Four(n);
    } else {
      DecimalFolds(n);
      assert d == Decimal(n);
    }
    var s := YearText(y) + rest;
    assert s[1..] == d + rest;
    NumberReads(d, rest, |s|);
  }

  lemma {:induction false} FieldReads(sep: char, n: int, rest: string)
    requires 0 <= n <= 99
    ensures ReadField([sep] + Two(n) + rest, sep) == Some((n, rest))
  {
    TwoFolds(n);
    assert ([sep] + Two(n) + rest)[1..] == Two(n) + rest;
    assert (Two(n) + rest)[0] == Two(n)[0];
    ScanDigits(Two(n), rest, 2, 0);
  }

  /** Text of separated two-digit fields. */
  function FieldText(seps: string, f: seq<int>): string
    requires |seps| == |f| && forall i :: 0 <= i < |f| ==> 0 <= f[i] <= 99
  {
    if f == [] then "" else [seps[0]] + Two(f[0]) + FieldText(seps[1..], f[1..])
  }

  lemma {:induction false} FieldsRead(seps: string, f: seq<int>)
    requires |seps| == |f| && forall i :: 0 <= i < |f| ==> 0 <= f[i] <= 99
    ensures ReadFields(FieldText(seps, f), seps) == Some((f, ""))
  {
    if f != [] {
      FieldReads(seps[0], f[0], FieldText(seps[1..], f[1..]));
      FieldsRead(seps[1..], f[1..]);
      assert [f[0]] + f[1..] == f;
    }
  }

  lemma FieldTextStep(sep: char, seps: string, n: int, f: seq<int>)
    requires 0 <= n <= 99 && |seps| == |f| && forall k :: 0 <= k < |f| ==> 0 <= f[k] <= 99
    ensures FieldText([sep] + seps, [n] + f) == [sep] + Two(n) + FieldText(seps, f)
  {
    assert ([sep] + seps)[1..] == seps && ([n] + f)[1..] == f;
  }

  lemma {:induction false} DayTextFields(t: DateTime)
    requires t.Valid()
    ensures DayText(t) == FieldText("-- ::", [t.month, t.day, t.hour, t.minute, t.second])
  {
    hide FieldText, Two;
    DatesFit(t);
    var f4, f3 := [t.second], [t.minute, t.second];
    var f2, f1 := [t.hour, t.minute, t.second], [t.day, t.hour, t.minute, t.second];
    FieldTextStep(':', "", t.second, []);
    FieldTextStep(':', ":", t.minute, f4);
    FieldTextStep(' ', "::", t.hour, f3);
    FieldTextStep('-', " ::", t.day, f2);
    FieldTextStep('-', "- ::", t.month, f1);
    assert FieldText("", []) == "" by {
      NoFields();
    }
    assert [':'] + "" == ":" && [':'] + ":" == "::" && [' '] + "::" == " ::";
    assert ['-'] + " ::" == "- ::" && ['-'] + "- ::" == "-- ::";
    assert [t.second] + [] == f4 && [t.minute] + f4 == f3 && [t.hour] + f3 == f2 && [t.day] + f2 == f1;
    assert FieldText(":", f4) == ":" + Two(t.second);
    assert FieldText("::", f3) == ":" + Two(t.minute) + FieldText(":", f4);
    assert FieldText(" ::", f2) == " " + Two(t.hour) + FieldText("::", f3) == " " + ClockText(t);
    assert FieldText("- ::", f1) == "-" + Two(t.day) + (" " + ClockText(t));
    assert [t.month] + f1 == [t.month, t.day, t.hour, t.minute, t.second];
    assert DayText(t) == "-" + Two(t.month) + ("-" + Two(t.day) + (" " + ClockText(t)));
  }

  lemma NoFields()
    ensures FieldText("", []) == ""
  {
  }

  lemma DatesFit(t: DateTime)
    requires t.Valid()
    ensures 1 <= t.month <= 12 && 1 <= t.day <= 31
  {
  }

  /** What is stored reads back as the requested time, truncated to the second:
      for every year, signed ones included. */
  lemma {:induction false} RoundTrip(t: DateTime)
    requires t.Valid()
    ensures Parse(Format(t)) == Some(t.Truncated())
  {
    DayTextFields(t);
    YearReads(t.year, DayText(t));
    FieldsRead("-- ::", [t.month, t.day, t.hour, t.minute, t.second]);
  }

  /** The layout of the stored text for years of four digits. */
  lemma FormatLayout(t: DateTime)
    requires t.Valid() && 0 <= t.year <= 9999
    ensures |Format(t)| == 19 && Format(t)[..4] == Four(t.year)
    ensures Format(t)[4] == '-' && Format(t)[5..7] == Two(t.month)
    ensures Format(t)[7] == '-' && Format(t)[8..10] == Two(t.day)
    ensures Format(t)[10] == ' ' && Format(t)[11..13] == Two(t.hour) && Format(t)[13] == ':'
    ensures Format(t)[14..16] == Two(t.minute) && Format(t)[16] == ':' && Format(t)[17..] == Two(t.second)
  {
  }

  /** The digits of a two-digit field, tens first. */
  lemma TwoDigits(n: int)
    requires 0 <= n <= 99
    ensures Two(n)[0] as int - '0' as int == n / 10 && Two(n)[1] as int - '0' as int == n % 10
  {
  }

  // ------------------------------------------------------ what `Unix` counts

  /** The same time of the next day of the calendar. */
  function NextDay(t: DateTime): DateTime {
    if t.day < DaysInMonth(t.year, t.month) then t.(day := t.day + 1)
    else if t.month < 12 then t.(month := t.month + 1, day := 1)
    else t.(year := t.year + 1, month := 1, day := 1)
  }

  /** The count is zero at the start of 1970, a day further is 86400 seconds, whatever
      the month or year, and within a day it is hours, minutes and seconds. */
  lemma {:induction false} UnixCountsSeconds(t: DateTime)
    requires t.Valid()
    ensures NextDay(t).Valid() && NextDay(t).Unix() == t.Unix() + 86400
    ensures t.Unix() == t.(hour := 0, minute := 0, second := 0).Unix() + 3600 * t.hour + 60 * t.minute + t.second
    ensures DateTime(1970, 1, 1, 0, 0, 0, t.nanos).Unix() == 0
  {
    YearStep(t.year);
    YearSum(t.year);
  }
}
