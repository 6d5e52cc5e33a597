/** What the printer and the parser say, in the Gregorian calendar's own numbers and in plain digits. */
module CalendarText {
  import opened Prelude
  import opened Decimals
  import opened Calendar
  import opened Timestamps
  import opened TimestampOrder

  // ---------------------------------------------------------------- a date and a time of day

  /** A date, the number of its day, and a time of day. */
  datatype Moment = Moment(n: nat, y: nat, m: nat, d: nat, h: nat, mi: nat, sec: nat)
  {
    /** The calendar and the clock have it. */
    predicate Valid() { Tabled(n, y, m, d) && y <= 9999 && h < 24 && mi < 60 && sec < 60 }

    /** Nanoseconds from the start of year 0. */
    function Instant(): nat { (n * 86_400 + h * 3_600 + mi * 60 + sec) * 1_000_000_000 }

    function DateText(): string { Digits(y, 4) + ("-" + Digits(m, 2) + ("-" + Digits(d, 2))) }

    function ClockText(): string { "T" + Digits(h, 2) + (":" + Digits(mi, 2) + (":" + Digits(sec, 2))) }

    function Text(): string { DateText() + ClockText() }

    function Six(): seq<nat> { [y, m, d, h, mi, sec] }
  }

  lemma PrintClock(h: nat, mi: nat, sec: nat)
    ensures Print([h, mi, sec], [Slot("T", 2), Slot(":", 2), Slot(":", 2)])
         == "T" + Digits(h, 2) + (":" + Digits(mi, 2) + (":" + Digits(sec, 2)))
  {
    var last := ":" + Digits(sec, 2);
    assert Print([sec], [Slot(":", 2)]) == last by {
      PrintFirst(sec, [], Slot(":", 2), []);
      assert [sec] == [sec] + [] && [Slot(":", 2)] == [Slot(":", 2)] + [];
      assert last + "" == last;
    }
    PrintFirst(mi, [sec], Slot(":", 2), [Slot(":", 2)]);
    PrintFirst(h, [mi, sec], Slot("T", 2), [Slot(":", 2), Slot(":", 2)]);
    assert [h, mi, sec] == [h] + [mi, sec] && [mi, sec] == [mi] + [sec];
  }

  lemma PrintMoment(o: Moment)
    ensures Print(o.Six(), TO_SECOND) == o.Text()
  {
    PrintDate(o.y, o.m, o.d);
    PrintClock(o.h, o.mi, o.sec);
    PrintTwoParts([o.y, o.m, o.d], [o.h, o.mi, o.sec],
                  [Slot("", 4), Slot("-", 2), Slot("-", 2)], [Slot("T", 2), Slot(":", 2), Slot(":", 2)]);
    assert o.Six() == [o.y, o.m, o.d] + [o.h, o.mi, o.sec];
    assert TO_SECOND == [Slot("", 4), Slot("-", 2), Slot("-", 2)] + [Slot("T", 2), Slot(":", 2), Slot(":", 2)];
  }

  lemma MomentFields(o: Moment)
    requires o.Valid()
    ensures InRange(o.Six()) && Seconds(o.Six()) * SECOND == o.Instant() && Fit(o.Six(), TO_SECOND)
  {
    TabledIsDate(o.n, o.y, o.m, o.d);
    assert Pow10(2) == 100 && Pow10(4) == 100 * Pow10(2);
    assert MonthLength(o.y, o.m) <= 31;
  }

  /** The printed text of an instant is its date by the table, its time of day and its milliseconds. */
  lemma PrintsTheCalendar(o: Moment, ms: nat, t: nat)
    requires o.Valid() && ms < 1000 && o.Instant() + ms * 1_000_000 <= t < o.Instant() + (ms + 1) * 1_000_000
    ensures FmtTime(t) == o.Text() + ("." + Digits(ms, 3) + "Z")
  {
    MomentFields(o);
    var u := InstantWith(o.Six(), ms);
    PrintMoment(o);
    FmtOf(u, o.Six(), ms);
    SameMillisecondSameText(t, u);
  }

  lemma ReadsSecond(f: seq<nat>)
    requires |f| == 6 && Fit(f, TO_SECOND) && InRange(f)
    ensures ParseTime(Print(f, TO_SECOND) + "Z") == Ok(Seconds(f) * SECOND)
  {
    ReadPrinted(f, TO_SECOND, "Z");
    assert FractionLength("Z") == 0 && "Z"[0..] == "Z";
  }

  /** The parser reads the text of a moment as its instant. */
  lemma ReadsTheCalendar(o: Moment)
    requires o.Valid()
    ensures ParseTime(o.Text() + "Z") == Ok(o.Instant())
  {
    MomentFields(o);
    PrintMoment(o);
    ReadsSecond(o.Six());
  }

  lemma ZedFraction(ds: string)
    requires AllDigits(ds) && ds != ""
    ensures var rest := "." + ds + "Z"; FractionLength(rest) == |ds| + 1 && rest[1..|ds| + 1] == ds && rest[|ds| + 1..] == "Z"
  {
    var rest := "." + ds + "Z";
    assert rest[1..] == ds + "Z";
    RunOver(ds, "Z");
  }

  lemma ReadsFraction(f: seq<nat>, ds: string, nanos: int)
    requires |f| == 6 && Fit(f, TO_SECOND) && InRange(f) && AllDigits(ds) && ds != "" && Nanos(ds) == nanos
    ensures ParseTime(Print(f, TO_SECOND) + ("." + ds + "Z")) == Ok(Seconds(f) * SECOND + nanos)
  {
    var rest := "." + ds + "Z";
    ZedFraction(ds);
    ReadPrinted(f, TO_SECOND, rest);
    ParseParts(Print(f, TO_SECOND) + rest, f, rest, |ds| + 1, nanos, 0);
  }

  /** And with a fraction behind it, as that many nanoseconds more. */
  lemma ReadsDecimals(o: Moment, ds: string)
    requires o.Valid() && AllDigits(ds) && ds != ""
    ensures ParseTime(o.Text() + ("." + ds + "Z")) == Ok(o.Instant() + Nanos(ds))
  {
    MomentFields(o);
    PrintMoment(o);
    ReadsFraction(o.Six(), ds, Nanos(ds));
  }

  /** n digits count as Value / 10^n seconds, and digits past the ninth for nothing. */
  lemma DecimalsAreNanos(ds: string)
    requires AllDigits(ds)
    ensures |ds| <= 9 ==> Nanos(ds) == Value(ds) * Pow10(9 - |ds|)
    ensures |ds| > 9 ==> Nanos(ds) == Nanos(ds[..9])
  {
    if |ds| > 9 { assert Pow10(9 - |ds[..9]|) == 1; }
  }

  function ZoneText(sign: char, h: nat, m: nat): string { [sign] + Digits(h, 2) + (":" + Digits(m, 2)) }

  /** A zone of h hours and m minutes east is that much earlier in UTC. */
  lemma EastIsEarlier(p: string, base: int, h: nat, m: nat)
    requires ParseTime(p + "Z") == Ok(base) && h <= 23 && m <= 59
    ensures ParseTime(p + ZoneText('+', h, m)) == Ok(base - (h * 3_600 + m * 60) * 1_000_000_000)
  {
    ZoneShape('+', h, m);
    Shifted(p, base, ZoneText('+', h, m), h * 3_600 + m * 60);
  }

  lemma WestIsLater(p: string, base: int, h: nat, m: nat)
    requires ParseTime(p + "Z") == Ok(base) && h <= 23 && m <= 59
    ensures ParseTime(p + ZoneText('-', h, m)) == Ok(base + (h * 3_600 + m * 60) * 1_000_000_000)
  {
    ZoneShape('-', h, m);
    Shifted(p, base, ZoneText('-', h, m), -(h * 3_600 + m * 60));
  }

  lemma Shifted(p: string, base: int, zone: string, offset: int)
    requires ParseTime(p + "Z") == Ok(base) && zone != "" && zone[0] in "+-" && Zone(zone) == Some(offset)
    ensures ParseTime(p + zone) == Ok(base - offset * 1_000_000_000)
  {
    OffsetsShift(p, zone);
  }

  lemma ZoneShape(sign: char, h: nat, m: nat)
    requires sign in "+-" && h <= 23 && m <= 59
    ensures var z := ZoneText(sign, h, m);
      && z != "" && z[0] in "+-"
      && Zone(z) == Some(if sign == '-' then -(h * 3_600 + m * 60) else h * 3_600 + m * 60)
  {
    DigitsShape(h, 2);
    DigitsShape(m, 2);
    TwoDigits(h);
    TwoDigits(m);
    ZoneParts(sign, Digits(h, 2), Digits(m, 2));
    ZoneOf(ZoneText(sign, h, m), Digits(h, 2), Digits(m, 2), h, m);
  }

  lemma ZoneOf(z: string, a: string, b: string, h: nat, m: nat)
    requires |z| == 6 && z[0] in "+-" && z[1..3] == a && z[3] == ':' && z[4..6] == b
    requires AllDigits(a) && AllDigits(b) && Value(a) == h <= 23 && Value(b) == m <= 59
    ensures Zone(z) == Some(if z[0] == '-' then -((h * 60 + m) * 60) else (h * 60 + m) * 60)
  {
    assert z != "Z";
  }

  lemma TwoDigits(n: nat)
    requires n < 100
    ensures AllDigits(Digits(n, 2)) && Value(Digits(n, 2)) == n
  {
    assert Pow10(2) == 100;
    ValueOfDigits(n, 2);
  }

  lemma ZoneParts(sign: char, a: string, b: string)
    requires |a| == 2 && |b| == 2
    ensures var z := [sign] + a + (":" + b); |z| == 6 && z[0] == sign && z[1..3] == a && z[3] == ':' && z[4..6] == b
  {
  }

  /** Noon on 31 March 2023 is a moment, and there is none on 31 April. */
  lemma MarchIsLongerThanApril(o: Moment)
    ensures Moment(738_975, 2023, 3, 31, 12, 0, 0).Valid()
    ensures o.m == 4 && o.d == 31 ==> !o.Valid()
  {
  }
}
