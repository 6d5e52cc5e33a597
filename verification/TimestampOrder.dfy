/** Text order is time order: what the SQLite window predicates rely on. */
module TimestampOrder {
  import opened Arithmetic
  import opened Prelude
  import opened Decimals
  import opened Calendar
  import opened Timestamps

  /** Where the fields of an earlier millisecond first differ from those of a later one. */
  lemma FieldsGoUp(s: nat, t: nat) returns (k: nat)
    requires s / MS < t / MS
    ensures UpAt(Fields(s), Fields(t), k)
  {
    var a, b := s / MS, t / MS;
    DivGrows(a, b, 1000);
    if a / 1000 == b / 1000 { return 6; }
    DivGrows(a / 1000, b / 1000, 60);
    if a / 1000 / 60 == b / 1000 / 60 { return 5; }
    DivGrows(a / 1000 / 60, b / 1000 / 60, 60);
    if a / 1000 / 60 / 60 == b / 1000 / 60 / 60 { return 4; }
    DivGrows(a / 1000 / 60 / 60, b / 1000 / 60 / 60, 24);
    if Days(s) == Days(t) { return 3; }
    k := DatesGoUp(s, t);
  }

  lemma DatesGoUp(s: nat, t: nat) returns (k: nat)
    requires Days(s) < Days(t)
    ensures UpAt(Fields(s), Fields(t), k)
  {
    DaysOrderDates(Days(s), Days(t));
    var a, b := DateOf(Days(s)), DateOf(Days(t));
    k := if a.year < b.year then 0 else if a.month < b.month then 1 else 2;
  }

  lemma EarlierIsLess(s: nat, t: nat)
    requires Year(s) <= 9999 && Year(t) <= 9999 && s / MS < t / MS
    ensures TextLess(FmtTime(s), FmtTime(t))
  {
    var k := FieldsGoUp(s, t);
    FieldsFit(s);
    FieldsFit(t);
    PrintOrder(Fields(s), Fields(t), Layout(Year(s)), k, "Z", "Z");
  }

  lemma SameMillisecondSameText(s: nat, t: nat)
    requires s / MS == t / MS
    ensures FmtTime(s) == FmtTime(t)
  {
  }

  lemma {:induction false} NotLessThanItself(a: string)
    ensures !TextLess(a, a)
  {
    if a != "" { NotLessThanItself(a[1..]); }
  }

  /** Comparing two stored texts is comparing the instants at millisecond precision. */
  lemma TextOrderIsTimeOrder(s: nat, t: nat)
    requires s < YEAR_10000 && t < YEAR_10000
    ensures TextLess(FmtTime(s), FmtTime(t)) <==> s / MS < t / MS
    ensures FmtTime(s) == FmtTime(t) <==> s / MS == t / MS
  {
    FourDigits(s);
    FourDigits(t);
    if s / MS < t / MS {
      EarlierIsLess(s, t);
      NotLessThanItself(FmtTime(s));
    } else if s / MS == t / MS {
      SameMillisecondSameText(s, t);
      NotLessThanItself(FmtTime(s));
    } else {
      EarlierIsLess(t, s);
      LessIsAsymmetric(FmtTime(t), FmtTime(s));
      NotLessThanItself(FmtTime(s));
    }
  }

  /** A window predicate on texts decides as the one on instants, except inside one millisecond. */
  lemma WindowsDecideAlike(at: nat, cutoff: nat)
    requires at < YEAR_10000 && cutoff < YEAR_10000
    ensures (TextLess(FmtTime(at), FmtTime(cutoff)) <==> at < cutoff) <==> !(at < cutoff && at / MS == cutoff / MS)
  {
    TextOrderIsTimeOrder(at, cutoff);
    if at / MS < cutoff / MS { assert at < cutoff; }
    if cutoff < at { assert cutoff / MS <= at / MS; }
  }

  // ---------------------------------------------------------------- rows written by strftime

  /** The fixed-width form: three fractional digits and a Z. */
  predicate Canonical(s: string) { |s| == 24 && s[19] == '.' && s[23] == 'Z' }

  lemma CanonicalTail(rest: string)
    requires |rest| == 5 && rest[0] == '.' && rest[4] == 'Z' && Zone(rest[FractionLength(rest)..]).Some?
    ensures FractionLength(rest) == 4 && Zone(rest[4..]) == Some(0)
    ensures Value(rest[1..4]) < 1000 && rest == "." + Digits(Value(rest[1..4]), 3) + "Z"
    ensures Nanos(rest[1..4]) == Value(rest[1..4]) * MS
  {
    var n := FractionLength(rest);
    assert |rest[n..]| == 5 - n;
    assert rest[n..] == "Z";
    DigitsOfValue(rest[1..4]);
    assert Pow10(3) == 1000;
    assert Pow10(6) == 1_000_000 by { assert Pow10(4) == 10 * Pow10(3); }
    assert rest == "." + rest[1..4] + "Z";
  }

  function SlotsLength(slots: seq<Slot>): nat {
    if slots == [] then 0 else |slots[0].prefix| + slots[0].width + SlotsLength(slots[1..])
  }

  lemma {:induction false} PrintLength(fields: seq<nat>, slots: seq<Slot>)
    requires |fields| == |slots|
    ensures |Print(fields, slots)| == SlotsLength(slots)
  {
    if slots != [] {
      DigitsShape(fields[0], slots[0].width);
      PrintLength(fields[1..], slots[1..]);
    }
  }

  lemma NineteenCharacters()
    ensures SlotsLength(TO_SECOND) == 19
  {
    assert SlotsLength(TO_SECOND[4..]) == 6 by {
      assert TO_SECOND[4..][1..] == TO_SECOND[5..];
      assert TO_SECOND[5..][1..] == [];
    }
    assert TO_SECOND[1..][1..] == TO_SECOND[2..] && TO_SECOND[2..][1..] == TO_SECOND[3..] && TO_SECOND[3..][1..] == TO_SECOND[4..];
    assert SlotsLength(TO_SECOND[2..]) == 6 + SlotsLength(TO_SECOND[4..]);
  }

  /** Splitting a count of milliseconds built from its parts. */
  lemma Splits(t: nat, days: nat, h: nat, mi: nat, sec: nat, ms: nat)
    requires h < 24 && mi < 60 && sec < 60 && ms < 1000
    requires t == ((((days * 24 + h) * 60 + mi) * 60 + sec) * 1000 + ms) * MS
    ensures t % MS == 0 && t / MS % 1000 == ms && t / MS / 1000 % 60 == sec
    ensures t / MS / 1000 / 60 % 60 == mi && t / MS / 1000 / 60 / 60 % 24 == h && Days(t) == days
  {
    var hours := days * 24 + h;
    var minutes := hours * 60 + mi;
    var seconds := minutes * 60 + sec;
    QuotientIs(t, MS, seconds * 1000 + ms, 0);
    QuotientIs(seconds * 1000 + ms, 1000, seconds, ms);
    QuotientIs(seconds, 60, minutes, sec);
    QuotientIs(minutes, 60, hours, mi);
    QuotientIs(hours, 24, days, h);
  }

  /** The instant with given fields. */
  lemma InstantOf(f: seq<nat>, ms: nat)
    requires |f| == 6 && InRange(f) && ms < 1000
    ensures Seconds(f) >= 0
    ensures Fields(Seconds(f) * SECOND + ms * MS) == f + [ms] && (Seconds(f) * SECOND + ms * MS) % MS == 0
  {
    var d := Date(f[0], f[1], f[2]);
    DateOfDayNumber(d);
    var t: nat := Seconds(f) * SECOND + ms * MS;
    Splits(t, DayNumber(d), f[3], f[4], f[5], ms);
    assert f == [f[0], f[1], f[2], f[3], f[4], f[5]];
  }

  lemma ParsedParts(s: string) returns (f: seq<nat>, rest: string)
    requires ParseTime(s).Ok?
    ensures Read(s, TO_SECOND) == Some((f, rest)) && |f| == 6 && InRange(f)
    ensures Zone(rest[FractionLength(rest)..]).Some?
  {
    var parts := Read(s, TO_SECOND).value;
    f, rest := parts.0, parts.1;
  }

  /** Behind the first nineteen characters of a canonical text come five more. */
  lemma CanonicalRest(s: string, f: seq<nat>, rest: string)
    requires Canonical(s) && Read(s, TO_SECOND) == Some((f, rest))
    ensures Fit(f, TO_SECOND) && s == Print(f, TO_SECOND) + rest
    ensures |rest| == 5 && rest[0] == '.' && rest[4] == 'Z'
  {
    PrintRead(s, TO_SECOND, f, rest);
    PrintLength(f, TO_SECOND);
    NineteenCharacters();
    assert rest == s[19..];
  }

  lemma CanonicalParts(s: string) returns (f: seq<nat>, ms: nat)
    requires Canonical(s) && ParseTime(s).Ok?
    ensures |f| == 6 && Fit(f, TO_SECOND) && InRange(f) && ms < 1000
    ensures s == Print(f, TO_SECOND) + ("." + Digits(ms, 3) + "Z")
    ensures ParseTime(s) == Ok(Seconds(f) * SECOND + ms * MS)
  {
    var rest;
    f, rest := ParsedParts(s);
    CanonicalRest(s, f, rest);
    CanonicalTail(rest);
    ms := Value(rest[1..4]);
    ParseParts(s, f, rest, 4, ms * MS, 0);
  }

  lemma FmtOf(t: nat, f: seq<nat>, ms: nat)
    requires Fields(t) == f + [ms] && |f| == 6 && f[0] <= 9999
    ensures Year(t) == f[0] && FmtTime(t) == Print(f, TO_SECOND) + ("." + Digits(ms, 3) + "Z")
  {
    assert Year(t) == Fields(t)[0];
    FmtParts(t);
    assert Fields(t)[..6] == f && Fields(t)[6] == ms;
  }

  lemma FourDigitYear(f: seq<nat>)
    requires Fit(f, TO_SECOND)
    ensures f[0] <= 9999
  {
    assert f[0] < Pow10(TO_SECOND[0].width);
    assert Pow10(2) == 100;
  }

  lemma CanonicalFmt(s: string) returns (t: nat)
    requires Canonical(s) && ParseTime(s).Ok?
    ensures ParseTime(s) == Ok(t) && t % MS == 0 && Year(t) <= 9999 && FmtTime(t) == s
  {
    var f, ms := CanonicalParts(s);
    t := InstantWith(f, ms);
    FourDigitYear(f);
    FmtOf(t, f, ms);
  }

  /** Every canonical text the parser accepts is the printer's text of the instant it denotes. */
  lemma CanonicalIsPrinted(s: string) returns (t: nat)
    requires Canonical(s) && ParseTime(s).Ok?
    ensures ParseTime(s) == Ok(t) && t % MS == 0 && t < YEAR_10000 && FmtTime(t) == s
  {
    t := CanonicalFmt(s);
    FourDigits(t);
  }

  lemma InstantWith(f: seq<nat>, ms: nat) returns (t: nat)
    requires |f| == 6 && InRange(f) && ms < 1000
    ensures t == Seconds(f) * SECOND + ms * MS && Fields(t) == f + [ms] && t % MS == 0
  {
    InstantOf(f, ms);
    t := Seconds(f) * SECOND + ms * MS;
  }

  /** So two canonical texts, whoever wrote them, compare as the instants they denote. */
  lemma StoredTextsInOrder(s: string, t: string)
    requires Canonical(s) && Canonical(t) && ParseTime(s).Ok? && ParseTime(t).Ok?
    ensures TextLess(s, t) <==> ParseTime(s).value < ParseTime(t).value
  {
    var u := CanonicalIsPrinted(s);
    var v := CanonicalIsPrinted(t);
    TextOrderIsTimeOrder(u, v);
    assert u == u / MS * MS && v == v / MS * MS;
  }

  // ---------------------------------------------------------------- offsets

  /** Before a zone, a fraction runs to the zone's first character. */
  lemma FractionBefore(mid: string, zone: string)
    requires zone != "" && !IsDigit(zone[0]) && zone[0] != '.' && FractionLength(mid + "Z") == |mid|
    ensures FractionLength(mid + zone) == |mid| && (mid + zone)[|mid|..] == zone
    ensures |mid| > 0 ==> (mid + zone)[1..|mid|] == (mid + "Z")[1..|mid|]
  {
    if mid == "" {
      assert mid + zone == zone;
    } else {
      assert (mid + "Z")[1..|mid|] == mid[1..];
      RunOver(mid[1..], zone);
      assert (mid + zone)[1..] == mid[1..] + zone;
      assert (mid + "Z")[1] == mid[1] == (mid + zone)[1];
    }
  }

  /** What precedes the Z of an accepted text: six fields and perhaps a fraction. */
  lemma BeforeTheZ(p: string) returns (f: seq<nat>, mid: string)
    requires ParseTime(p + "Z").Ok?
    ensures Fit(f, TO_SECOND) && |f| == 6 && InRange(f) && p == Print(f, TO_SECOND) + mid
    ensures Read(p + "Z", TO_SECOND) == Some((f, mid + "Z")) && FractionLength(mid + "Z") == |mid|
  {
    var rest;
    f, rest := ParsedParts(p + "Z");
    PrintRead(p + "Z", TO_SECOND, f, rest);
    var n := FractionLength(rest);
    assert |rest[n..]| > 0;
    assert Last(p + "Z") == Last(rest) == Last(rest[n..]) == 'Z';
    ZoneEnds(rest[n..]);
    mid := rest[..n];
    assert rest == mid + "Z";
    assert p == (p + "Z")[..|p|];
    assert Print(f, TO_SECOND) + rest == Print(f, TO_SECOND) + mid + "Z";
  }

  lemma ZoneEnds(z: string)
    requires z != "" && Zone(z).Some?
    ensures z == "Z" || IsDigit(Last(z))
  {
    if z != "Z" { assert z[4..6][1] == z[5] && z[4..6][1] in z[4..6]; }
  }

  /** A text with an offset denotes the instant of the same text in UTC, earlier by the offset. */
  lemma OffsetsShift(p: string, zone: string)
    requires ParseTime(p + "Z").Ok? && zone != "" && zone[0] in "+-" && Zone(zone).Some?
    ensures ParseTime(p + zone) == Ok(ParseTime(p + "Z").value - Zone(zone).value * SECOND)
  {
    var f, mid := BeforeTheZ(p);
    FractionBefore(mid, zone);
    ReadPrinted(f, TO_SECOND, mid + zone);
    Regroup(Print(f, TO_SECOND), mid, zone);
    assert (mid + "Z")[|mid|..] == "Z";
  }

  // ---------------------------------------------------------------- the sentinel and the far future

  const SQLITE_EPOCH := "0001-01-01T00:00:00.000Z"

  /** Midnight, 1 January of year 1: year 0 is a leap year. */
  const YEAR_ONE: nat := 366 * 24 * 3600 * SECOND

  lemma PrintFirst(x: nat, fields: seq<nat>, slot: Slot, slots: seq<Slot>)
    requires |fields| == |slots|
    ensures Print([x] + fields, [slot] + slots) == slot.prefix + Digits(x, slot.width) + Print(fields, slots)
  {
    assert ([x] + fields)[1..] == fields && ([slot] + slots)[1..] == slots;
  }

  lemma PrintDate(y: nat, m: nat, d: nat)
    ensures Print([y, m, d], [Slot("", 4), Slot("-", 2), Slot("-", 2)]) == Digits(y, 4) + ("-" + Digits(m, 2) + ("-" + Digits(d, 2)))
  {
    var day := "-" + Digits(d, 2);
    assert Print([d], [Slot("-", 2)]) == day by {
      PrintFirst(d, [], Slot("-", 2), []);
      assert [d] == [d] + [] && [Slot("-", 2)] == [Slot("-", 2)] + [];
      assert day + "" == day;
    }
    PrintFirst(m, [d], Slot("-", 2), [Slot("-", 2)]);
    PrintFirst(y, [m, d], Slot("", 4), [Slot("-", 2), Slot("-", 2)]);
    assert "" + Digits(y, 4) == Digits(y, 4);
    assert [y, m, d] == [y] + [m, d] && [m, d] == [m] + [d];
  }

  lemma PrintMidnight()
    ensures Print([0, 0, 0], [Slot("T", 2), Slot(":", 2), Slot(":", 2)]) == "T00:00:00"
  {
    assert Digits(0, 2) == "00" by { assert Digits(0, 1) == "0"; }
    PrintFirst(0, [], Slot(":", 2), []);
    PrintFirst(0, [0], Slot(":", 2), [Slot(":", 2)]);
    PrintFirst(0, [0, 0], Slot("T", 2), [Slot(":", 2), Slot(":", 2)]);
  }

  lemma SmallNumerals()
    ensures Digits(0, 2) == "00" && Digits(0, 3) == "000" && Digits(1, 2) == "01" && Digits(1, 4) == "0001"
  {
    assert Digits(0, 1) == "0";
    assert Digits(0, 2) == Digits(0, 1) + "0";
    assert Digits(0, 3) == Digits(0, 2) + "0";
    assert Digits(1, 2) == Digits(0, 1) + "1";
    assert Digits(1, 4) == Digits(0, 3) + "1";
  }

  lemma EpochDate(f: seq<nat>, s: seq<Slot>)
    requires f == [1, 1, 1] && s == [Slot("", 4), Slot("-", 2), Slot("-", 2)]
    ensures Print(f, s) == "0001-01-01"
  {
    PrintDate(1, 1, 1);
    SmallNumerals();
  }

  lemma EpochText(f: seq<nat>)
    requires f == [1, 1, 1, 0, 0, 0]
    ensures Print(f, TO_SECOND) + ("." + Digits(0, 3) + "Z") == SQLITE_EPOCH
  {
    var date, time := [Slot("", 4), Slot("-", 2), Slot("-", 2)], [Slot("T", 2), Slot(":", 2), Slot(":", 2)];
    assert f == [1, 1, 1] + [0, 0, 0] && TO_SECOND == date + time;
    PrintTwoParts([1, 1, 1], [0, 0, 0], date, time);
    EpochDate([1, 1, 1], date);
    PrintMidnight();
    SmallNumerals();
    EpochPieces("0001-01-01", "T00:00:00", "000");
  }

  lemma EpochPieces(date: string, time: string, ms: string)
    requires date == "0001-01-01" && time == "T00:00:00" && ms == "000"
    ensures date + time + ("." + ms + "Z") == SQLITE_EPOCH
  {
  }

  lemma EpochIsYearOne(t: nat)
    requires t == YEAR_ONE
    ensures Year(t) == 1 && FmtTime(t) == SQLITE_EPOCH
  {
    var f := [1, 1, 1, 0, 0, 0];
    assert DayNumber(Date(1, 1, 1)) == 366;
    var u := InstantWith(f, 0);
    FmtOf(u, f, 0);
    EpochText(f);
  }

  /** The "no successful login yet" bound is below exactly the times past the first millisecond of year 1. */
  lemma EpochIsTheFloor(t: nat)
    requires t < YEAR_10000
    ensures TextLess(SQLITE_EPOCH, FmtTime(t)) <==> t >= YEAR_ONE + MS
  {
    var epoch: nat := YEAR_ONE;
    EpochIsYearOne(epoch);
    TextOrderIsTimeOrder(epoch, t);
    assert epoch / MS < t / MS <==> t >= epoch + MS by { assert epoch % MS == 0; }
  }

  // ---------------------------------------------------------------- five-digit years

  lemma ReadsDash(s: string)
    requires Read(s, TO_SECOND).Some?
    ensures |s| > 4 && s[4] == '-'
  {
    var ds, tail := OneRead(s, TO_SECOND);
    assert tail == s[4..] && TO_SECOND[1..][0] == Slot("-", 2);
    var es, rest := OneRead(tail, TO_SECOND[1..]);
    assert tail[0] == '-';
  }

  /** The printed year, then the rest. */
  lemma YearInFront(t: nat) returns (y: string, more: string)
    ensures FmtTime(t) == y + more && y == Digits(Year(t), YearWidth(Year(t))) && |y| == YearWidth(Year(t)) && AllDigits(y)
  {
    y := Digits(Year(t), YearWidth(Year(t)));
    more := Print(Fields(t)[1..], Layout(Year(t))[1..]) + "Z";
    DigitsShape(Year(t), YearWidth(Year(t)));
  }

  lemma WideYearFails(t: nat)
    requires Year(t) > 9999
    ensures ParseTime(FmtTime(t)).Err?
  {
    var y, more := YearInFront(t);
    var s := FmtTime(t);
    assert s[4] == y[4] && IsDigit(y[4]);
    if Read(s, TO_SECOND).Some? { ReadsDash(s); }
  }

  /** The text parses back exactly up to year 9999. */
  lemma ParsesExactlyFourDigitYears(t: nat)
    ensures ParseTime(FmtTime(t)).Ok? <==> t < YEAR_10000
  {
    FourDigits(t);
    if Year(t) <= 9999 { ParseOfFmt(t); } else { WideYearFails(t); }
  }

  lemma {:induction false} FirstDigit(n: nat, w: nat) returns (d: nat)
    requires n < Pow10(w + 1)
    ensures d == n / Pow10(w) && d < 10 && |Digits(n, w + 1)| == w + 1 && Digits(n, w + 1)[0] == DigitChar(d)
  {
    DigitsShape(n, w + 1);
    if w == 0 {
      d := n;
    } else {
      d := FirstDigit(n / 10, w - 1);
      DigitsShape(n / 10, w);
      DivTwice(n, Pow10(w - 1));
    }
  }

  lemma FirstCharacter(t: nat, w: nat) returns (d: nat)
    requires YearWidth(Year(t)) == w + 1 && Year(t) < Pow10(w + 1)
    ensures d == Year(t) / Pow10(w) && d < 10 && FmtTime(t) != "" && FmtTime(t)[0] == DigitChar(d)
  {
    var y, more := YearInFront(t);
    d := FirstDigit(Year(t), w);
  }

  lemma LaterYearIsLater(s: nat, t: nat)
    requires Year(s) < Year(t)
    ensures s < t
  {
    if t <= s {
      DaysGrow(t, s);
      if Days(t) < Days(s) { DaysOrderDates(Days(t), Days(s)); }
    }
  }

  lemma Powers()
    ensures Pow10(3) == 1000 && Pow10(4) == 10000 && Pow10(5) == 100000
  {
    assert Pow10(2) == 100;
  }

  /** From year 10000 to 19999 the text sorts before years 2000 to 9999, which it follows. */
  lemma FiveDigitYearsSortEarly(s: nat, t: nat)
    requires 2000 <= Year(s) <= 9999 && 10000 <= Year(t) <= 19999
    ensures s < t && TextLess(FmtTime(t), FmtTime(s))
  {
    LaterYearIsLater(s, t);
    Powers();
    var a := FirstCharacter(s, 3);
    assert YearWidth(Year(t)) == 5;
    var b := FirstCharacter(t, 4);
  }

  ghost predicate OrderedBelow(bound: nat) {
    forall s: nat, t: nat | s < bound && t < bound :: TextLess(FmtTime(s), FmtTime(t)) <==> s / MS < t / MS
  }

  lemma LastDayIsLate(t: nat, y: nat)
    requires y < 10000 && Days(t) == 3652424
    ensures y <= Year(t)
  {
    var x: nat :| 9999 < x < 10001;
    TenThousandYears(x);
    YearsGrow(y, x);
    YearBefore(Days(t), y);
  }

  lemma FirstDayIsEarly(t: nat, y: nat)
    requires y > 10000 && Days(t) == 3652425
    ensures Year(t) < y
  {
    var x: nat :| 9999 < x < 10001;
    TenThousandYears(x);
    YearsGrow(x, y);
    YearBefore(Days(t), y);
  }

  lemma DaysAround(s: nat, t: nat)
    requires s == YEAR_10000 - 1 && t == YEAR_10000
    ensures Days(s) == 3652424 && Days(t) == 3652425 && s / MS < t / MS
  {
  }

  lemma YearsAround(s: nat, t: nat)
    requires s == YEAR_10000 - 1 && t == YEAR_10000
    ensures 2000 <= Year(s) <= 9999 && 10000 <= Year(t) <= 19999 && s / MS < t / MS
  {
    DaysAround(s, t);
    FourDigits(s);
    FourDigits(t);
    LastDayIsLate(s, 2000);
    FirstDayIsEarly(t, 20000);
  }

  lemma LastAndFirst(s: nat, t: nat)
    requires s == YEAR_10000 - 1 && t == YEAR_10000
    ensures s / MS < t / MS && !TextLess(FmtTime(s), FmtTime(t))
  {
    YearsAround(s, t);
    FiveDigitYearsSortEarly(s, t);
    LessIsAsymmetric(FmtTime(t), FmtTime(s));
  }

  /** Year 10000 is the exact bound up to which text order is time order. */
  lemma OrderedExactlyBelow10000(bound: nat)
    ensures OrderedBelow(bound) <==> bound <= YEAR_10000
  {
    if bound <= YEAR_10000 {
      forall s: nat, t: nat | s < bound && t < bound ensures TextLess(FmtTime(s), FmtTime(t)) <==> s / MS < t / MS {
        TextOrderIsTimeOrder(s, t);
      }
    } else {
      var s: nat, t: nat :| s == YEAR_10000 - 1 && t == YEAR_10000;
      LastAndFirst(s, t);
    }
  }

  lemma DaysGrow(s: nat, t: nat)
    requires s <= t
    ensures Days(s) <= Days(t)
  {
    assert s / MS <= t / MS;
    assert s / MS / 1000 <= t / MS / 1000;
    assert s / MS / 1000 / 60 <= t / MS / 1000 / 60;
    assert s / MS / 1000 / 60 / 60 <= t / MS / 1000 / 60 / 60;
  }
}
