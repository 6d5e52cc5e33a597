/**
  Timestamps as SQLite text (server/internal/store/sqlite.go).

  An instant is a whole number of nanoseconds since the start of year 0, UTC. The printer is the layout
  "2006-01-02T15:04:05.000Z07:00" applied to a UTC time; the parser follows section 5.6 of RFC 3339.
*/
module Timestamps {
  import opened Prelude
  import opened Decimals
  import opened Calendar

  const MS: int := 1_000_000
  const SECOND: int := 1_000_000_000

  // ---------------------------------------------------------------- fixed-width fields

  /** A numeral of fixed width behind a fixed text. */
  datatype Slot = Slot(prefix: string, width: nat)

  function Print(fields: seq<nat>, slots: seq<Slot>): string
    requires |fields| == |slots|
  {
    if slots == [] then "" else slots[0].prefix + Digits(fields[0], slots[0].width) + Print(fields[1..], slots[1..])
  }

  /** Reads the fields off the front of a text; what follows them is returned too. */
  function Read(s: string, slots: seq<Slot>): Option<(seq<nat>, string)> {
    if slots == [] then Some(([], s)) else
    var p, e := |slots[0].prefix|, |slots[0].prefix| + slots[0].width;
    if |s| < e || s[..p] != slots[0].prefix || !AllDigits(s[p..e]) then None else
    match Read(s[e..], slots[1..])
    case None => None
    case Some((fields, rest)) => Some(([Value(s[p..e])] + fields, rest))
  }

  predicate Fit(fields: seq<nat>, slots: seq<Slot>) {
    |fields| == |slots| && forall i | 0 <= i < |fields| :: fields[i] < Pow10(slots[i].width)
  }

  /** One slot read off the front. */
  lemma ReadOne(ds: string, more: string, slots: seq<Slot>, fields: seq<nat>, rest: string)
    requires slots != [] && |ds| == slots[0].width && AllDigits(ds)
    requires Read(more, slots[1..]) == Some((fields, rest))
    ensures Read(slots[0].prefix + ds + more, slots) == Some(([Value(ds)] + fields, rest))
  {
    var s, p := slots[0].prefix + ds + more, |slots[0].prefix|;
    assert s[..p] == slots[0].prefix && s[p..p + |ds|] == ds && s[p + |ds|..] == more;
  }

  lemma OneRead(s: string, slots: seq<Slot>) returns (ds: string, more: string)
    requires slots != [] && Read(s, slots).Some?
    ensures |ds| == slots[0].width && AllDigits(ds) && s == slots[0].prefix + ds + more
    ensures Read(more, slots[1..]).Some?
    ensures Read(s, slots).value == ([Value(ds)] + Read(more, slots[1..]).value.0, Read(more, slots[1..]).value.1)
  {
    var p, e := |slots[0].prefix|, |slots[0].prefix| + slots[0].width;
    ds, more := s[p..e], s[e..];
    assert s == s[..p] + ds + more;
  }

  /** Printing with something behind it, first slot first. */
  lemma PrintOne(fields: seq<nat>, slots: seq<Slot>, rest: string)
    requires slots != [] && |fields| == |slots|
    ensures Print(fields, slots) + rest
         == slots[0].prefix + Digits(fields[0], slots[0].width) + (Print(fields[1..], slots[1..]) + rest)
  {
    Regroup(slots[0].prefix + Digits(fields[0], slots[0].width), Print(fields[1..], slots[1..]), rest);
  }

  lemma {:induction false} ReadPrinted(fields: seq<nat>, slots: seq<Slot>, rest: string)
    requires Fit(fields, slots)
    ensures Read(Print(fields, slots) + rest, slots) == Some((fields, rest))
  {
    if slots == [] {
      assert Print(fields, slots) + rest == rest;
    } else {
      var ds, tail := Digits(fields[0], slots[0].width), Print(fields[1..], slots[1..]);
      ReadPrinted(fields[1..], slots[1..], rest);
      DigitsShape(fields[0], slots[0].width);
      ValueOfDigits(fields[0], slots[0].width);
      ReadOne(ds, tail + rest, slots, fields[1..], rest);
      PrintOne(fields, slots, rest);
      assert [fields[0]] + fields[1..] == fields;
    }
  }

  lemma {:induction false} PrintRead(s: string, slots: seq<Slot>, fields: seq<nat>, rest: string)
    requires Read(s, slots) == Some((fields, rest))
    ensures Fit(fields, slots) && s == Print(fields, slots) + rest
  {
    if slots == [] {
      assert Print(fields, slots) + rest == rest;
    } else {
      var ds, more := OneRead(s, slots);
      assert fields[1..] == Read(more, slots[1..]).value.0;
      PrintRead(more, slots[1..], fields[1..], rest);
      PrintAgain(fields, slots, ds, rest);
    }
  }

  lemma PrintAgain(fields: seq<nat>, slots: seq<Slot>, ds: string, rest: string)
    requires slots != [] && fields != [] && Fit(fields[1..], slots[1..])
    requires |ds| == slots[0].width && AllDigits(ds) && fields[0] == Value(ds)
    ensures Fit(fields, slots)
    ensures slots[0].prefix + ds + (Print(fields[1..], slots[1..]) + rest) == Print(fields, slots) + rest
  {
    DigitsOfValue(ds);
    assert Fit(fields, slots) by {
      assert forall i | 1 <= i < |fields| :: fields[i] == fields[1..][i - 1] && slots[i] == slots[1..][i - 1];
    }
    PrintOne(fields, slots, rest);
  }

  /** The first difference is at k, and goes up. */
  predicate UpAt(a: seq<nat>, b: seq<nat>, k: nat) {
    k < |a| == |b| && a[k] < b[k] && forall i | 0 <= i < k :: a[i] == b[i]
  }

  lemma UpLater(a: seq<nat>, b: seq<nat>, slots: seq<Slot>, k: nat)
    requires Fit(a, slots) && Fit(b, slots) && UpAt(a, b, k) && k > 0
    ensures Fit(a[1..], slots[1..]) && Fit(b[1..], slots[1..]) && UpAt(a[1..], b[1..], k - 1)
  {
  }

  lemma {:induction false} PrintOrder(a: seq<nat>, b: seq<nat>, slots: seq<Slot>, k: nat, x: string, y: string)
    requires Fit(a, slots) && Fit(b, slots) && UpAt(a, b, k)
    ensures TextLess(Print(a, slots) + x, Print(b, slots) + y)
    decreases k
  {
    var pre, w := slots[0].prefix, slots[0].width;
    var da, db := Digits(a[0], w), Digits(b[0], w);
    var ta, tb := Print(a[1..], slots[1..]) + x, Print(b[1..], slots[1..]) + y;
    PrintOne(a, slots, x);
    PrintOne(b, slots, y);
    Regroup(pre, da, ta);
    Regroup(pre, db, tb);
    assert TextLess(da + ta, db + tb) by {
      if k == 0 {
        DigitsOrder(a[0], b[0], w);
        DigitsShape(a[0], w);
        DigitsShape(b[0], w);
        LessAtFront(da, db, ta, tb);
      } else {
        UpLater(a, b, slots, k);
        PrintOrder(a[1..], b[1..], slots[1..], k - 1, x, y);
        LessBehind(da, ta, tb);
      }
    }
    LessBehind(pre, da + ta, db + tb);
  }

  // ---------------------------------------------------------------- the printer

  function Days(t: nat): nat { t / MS / 1000 / 60 / 60 / 24 }

  function Year(t: nat): nat { DateOf(Days(t)).year }

  /** Midnight, 1 January of year 10000: years 0 to 9999 have 3652425 days. */
  const YEAR_10000: nat := 3652425 * 24 * 3600 * SECOND

  lemma {:induction false} YearBefore(n: nat, y: nat)
    ensures DateOf(n).year < y <==> n < DaysBeforeYear(y)
  {
    var r := DateOf(n).year;
    assert DaysBeforeYear(r) <= n < DaysBeforeYear(r + 1);
    if r < y { if r + 1 < y { YearsGrow(r + 1, y); } }
    if y < r { YearsGrow(y, r); }
  }

  lemma TenThousandYears(y: nat)
    requires 9999 < y < 10001
    ensures DaysBeforeYear(y) == 3652425
  {
    DaysBeforeYearIs(y);
  }

  /** A year has at most four digits exactly before year 10000. */
  lemma FourDigits(t: nat)
    ensures Year(t) <= 9999 <==> t < YEAR_10000
  {
    var y: nat :| 9999 < y < 10001;
    TenThousandYears(y);
    YearBefore(Days(t), y);
    assert Days(t) < 3652425 <==> t < YEAR_10000;
  }

  /** Year, month, day, hour, minute, second, millisecond. */
  function Fields(t: nat): seq<nat> {
    var ms := t / MS;
    var d := DateOf(Days(t));
    [d.year, d.month, d.day, ms / 1000 / 60 / 60 % 24, ms / 1000 / 60 % 60, ms / 1000 % 60, ms % 1000]
  }

  /** A year past 9999 prints wider. */
  function YearWidth(y: nat): (w: nat)
    ensures w >= 4 && (w == 4 <==> y <= 9999)
  {
    if y < 10000 then 4 else 1 + YearWidth(y / 10)
  }

  const TO_SECOND: seq<Slot> := [Slot("", 4), Slot("-", 2), Slot("-", 2), Slot("T", 2), Slot(":", 2), Slot(":", 2)]
  const MILLIS: seq<Slot> := [Slot(".", 3)]

  function Layout(y: nat): seq<Slot> {
    [Slot("", YearWidth(y)), Slot("-", 2), Slot("-", 2), Slot("T", 2), Slot(":", 2), Slot(":", 2), Slot(".", 3)]
  }

  function FmtTime(t: nat): string { Print(Fields(t), Layout(Year(t))) + "Z" }

  // ---------------------------------------------------------------- the parser

  datatype ParseError = BadTime

  /** The number of characters a fraction takes, 0 without one. */
  function FractionLength(s: string): (n: nat)
    ensures n == 0 || (2 <= n <= |s| && AllDigits(s[1..n]))
  {
    if |s| >= 2 && s[0] == '.' && IsDigit(s[1]) then
      var n := DigitRun(s[1..]);
      assert s[1..n + 1] == s[1..][..n];
      n + 1
    else 0
  }

  /** Digits past the ninth are cut off. */
  function Nanos(digits: string): int
    requires AllDigits(digits)
  {
    if |digits| <= 9 then Value(digits) * Pow10(9 - |digits|) else Value(digits[..9])
  }

  /** The offset from UTC in seconds. */
  function Zone(s: string): Option<int> {
    if s == "Z" then Some(0)
    else if |s| == 6 && s[0] in "+-" && s[3] == ':' && AllDigits(s[1..3]) && AllDigits(s[4..6])
            && Value(s[1..3]) <= 23 && Value(s[4..6]) <= 59 then
      var offset := (Value(s[1..3]) * 60 + Value(s[4..6])) * 60;
      Some(if s[0] == '-' then -offset else offset)
    else None
  }

  predicate InRange(f: seq<nat>)
    requires |f| == 6
  {
    IsDate(Date(f[0], f[1], f[2])) && f[3] <= 23 && f[4] <= 59 && f[5] <= 59
  }

  function Seconds(f: seq<nat>): int
    requires |f| == 6
  {
    ((DayNumber(Date(f[0], f[1], f[2])) * 24 + f[3]) * 60 + f[4]) * 60 + f[5]
  }

  function ParseTime(s: string): Result<int, ParseError> {
    match Read(s, TO_SECOND)
    case None => Err(BadTime)
    case Some((f, rest)) =>
      if |f| != 6 || !InRange(f) then Err(BadTime) else
      var n := FractionLength(rest);
      var nanos := if n == 0 then 0 else Nanos(rest[1..n]);
      match Zone(rest[n..])
      case None => Err(BadTime)
      case Some(offset) => Ok((Seconds(f) - offset) * SECOND + nanos)
  }

  // ---------------------------------------------------------------- round trips

  function Truncated(t: nat): nat { t / MS * MS }

  lemma FieldsFit(t: nat)
    requires Year(t) <= 9999
    ensures Fit(Fields(t), Layout(Year(t))) && InRange(Fields(t)[..6])
    ensures Layout(Year(t)) == TO_SECOND + MILLIS
    ensures Seconds(Fields(t)[..6]) * 1000 + Fields(t)[6] == t / MS
  {
    assert Pow10(2) == 100 && Pow10(3) == 1000;
    assert Pow10(4) == 10 * Pow10(3);
  }

  lemma {:induction false} PrintTwoParts(a: seq<nat>, b: seq<nat>, s: seq<Slot>, r: seq<Slot>)
    requires |a| == |s| && |b| == |r|
    ensures Print(a + b, s + r) == Print(a, s) + Print(b, r)
  {
    if s == [] {
      assert a + b == b && s + r == r;
    } else {
      PrintTwoParts(a[1..], b, s[1..], r);
      assert (a + b)[1..] == a[1..] + b && (s + r)[1..] == s[1..] + r;
    }
  }

  /** The text of a year up to 9999: six fields, a point, three digits and a Z. */
  lemma FmtParts(t: nat)
    requires Year(t) <= 9999
    ensures FmtTime(t) == Print(Fields(t)[..6], TO_SECOND) + ("." + Digits(Fields(t)[6], 3) + "Z")
  {
    FieldsFit(t);
    assert Fields(t) == Fields(t)[..6] + [Fields(t)[6]];
    PrintTwoParts(Fields(t)[..6], [Fields(t)[6]], TO_SECOND, MILLIS);
    PrintMillis(Fields(t)[6]);
  }

  lemma PrintMillis(n: nat)
    ensures Print([n], MILLIS) == "." + Digits(n, 3)
  {
    assert Print([n][1..], MILLIS[1..]) == "";
    assert Print([n], MILLIS) == MILLIS[0].prefix + Digits(n, 3) + "";
  }

  lemma MillisAndZone(n: nat)
    requires n < 1000
    ensures var rest := "." + Digits(n, 3) + "Z";
      FractionLength(rest) == 4 && AllDigits(rest[1..4]) && Nanos(rest[1..4]) == n * MS && rest[4..] == "Z"
  {
    var ds := Digits(n, 3);
    var rest := "." + ds + "Z";
    DigitsShape(n, 3);
    assert Pow10(3) == 1000;
    ValueOfDigits(n, 3);
    assert rest[1..] == ds + "Z" && rest[1..4] == ds;
    RunOver(ds, "Z");
    assert Pow10(6) == 1_000_000 by { assert Pow10(4) == 10 * Pow10(3); }
  }

  lemma ParseOfFields(s: string, f: seq<nat>, rest: string, ms: nat)
    requires |f| == 6 && Fit(f, TO_SECOND) && InRange(f)
    requires s == Print(f, TO_SECOND) + rest
    requires FractionLength(rest) == 4 && Nanos(rest[1..4]) == ms * MS && rest[4..] == "Z"
    ensures ParseTime(s) == Ok(Seconds(f) * SECOND + ms * MS)
  {
    ReadPrinted(f, TO_SECOND, rest);
    ParseParts(s, f, rest, 4, ms * MS, 0);
  }

  lemma PartsFit(t: nat, f: seq<nat>)
    requires Year(t) <= 9999 && f == Fields(t)[..6]
    ensures Fit(f, TO_SECOND) && InRange(f) && Seconds(f) * SECOND + Fields(t)[6] * MS == Truncated(t)
  {
    FieldsFit(t);
  }

  /** Parsing what was printed gives the instant truncated to the millisecond. */
  lemma ParseOfFmt(t: nat)
    requires t < YEAR_10000
    ensures ParseTime(FmtTime(t)) == Ok(Truncated(t))
  {
    FourDigits(t);
    FmtParts(t);
    PartsFit(t, Fields(t)[..6]);
    MillisAndZone(Fields(t)[6]);
    ParseOfFields(FmtTime(t), Fields(t)[..6], "." + Digits(Fields(t)[6], 3) + "Z", Fields(t)[6]);
  }

  /** What the parser makes of its parts. */
  lemma ParseParts(s: string, f: seq<nat>, rest: string, n: nat, nanos: int, offset: int)
    requires Read(s, TO_SECOND) == Some((f, rest)) && |f| == 6 && InRange(f)
    requires FractionLength(rest) == n > 0 && Nanos(rest[1..n]) == nanos && Zone(rest[n..]) == Some(offset)
    ensures ParseTime(s) == Ok((Seconds(f) - offset) * SECOND + nanos)
  {
  }
}
