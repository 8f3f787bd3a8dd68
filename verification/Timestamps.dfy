/** Timestamps as the store writes them: RFC 3339 in UTC at whole seconds.
    An instant is a count of nanoseconds from 0000-01-01T00:00:00Z. */
module Timestamps {
  import opened Text
  import opened Calendar

  const SECOND: nat := 1_000_000_000
  const DAY_SECONDS: nat := 86400

  /** Digits of a year, and of every other field. */
  const YEAR_WIDTH: nat := 4
  const FIELD_WIDTH: nat := 2

  /** Days and instants of the years 0000 to 9999, the range RFC 3339 can write. */
  const LAST_DAY: nat := 3652424

  predicate StorableDay(day: nat) {
    day <= LAST_DAY
  }

  predicate Storable(t: nat) {
    t < (LAST_DAY + 1) * DAY_SECONDS * SECOND
  }

  function FormatDate(day: nat): string {
    var d := DateOf(day);
    Field(d.year, YEAR_WIDTH, '-', Field(d.month, FIELD_WIDTH, '-', Pad(d.day, FIELD_WIDTH)))
  }

  function FormatClock(sec: nat): string {
    Field(sec / 3600, FIELD_WIDTH, ':', Field(sec / 60 % 60, FIELD_WIDTH, ':', Field(sec % 60, FIELD_WIDTH, 'Z', "")))
  }

  /** time.Time.Format(time.RFC3339) of a UTC instant: the fraction is dropped. */
  function Format(t: nat): string {
    var s := t / SECOND;
    var d := DateOf(s / DAY_SECONDS);
    Field(d.year, YEAR_WIDTH, '-', Field(d.month, FIELD_WIDTH, '-', Field(d.day, FIELD_WIDTH, 'T', FormatClock(s % DAY_SECONDS))))
  }

  /** time.Parse with layout 2006-01-02: four, two and two digits, and a real date. */
  function ParseDate(s: string): Option<nat> {
    if |s| != 10 || s[4] != '-' || s[7] != '-' then None
    else if !AllDigits(s[..4]) || !AllDigits(s[5..7]) || !AllDigits(s[8..]) then None
    else
      var d := Date(Value(s[..4]), Value(s[5..7]), Value(s[8..]));
      if ValidDate(d) then Some(DayNumber(d)) else None
  }

  /** The last storable day is 9999-12-31. */
  lemma StorableYears(day: nat, years: nat)
    requires years == 10000
    ensures StorableDay(day) <==> DateOf(day).year < years
  {
    var y := DateOf(day).year;
    LeapDaysCounted(years);
    if y < years { YearsAccumulate(y + 1, years); } else { YearsAccumulate(years, y); }
    MonthsAccumulate(y, DateOf(day).month + 1, 13);
  }

  lemma Widths()
    ensures Pow10(FIELD_WIDTH) == 100 && Pow10(YEAR_WIDTH) == 10000
  {
    assert Pow10(1) == 10;
    assert Pow10(3) == 10 * Pow10(2);
  }

  lemma FieldsOrder(d: Date, e: Date, a: string, b: string)
    requires d.year < 10000 && e.year < 10000 && d.month < 100 && e.month < 100 && d.day < 100 && e.day < 100
    ensures var x := Field(d.year, YEAR_WIDTH, '-', Field(d.month, FIELD_WIDTH, '-', Field(d.day, FIELD_WIDTH, 'T', a)));
            var y := Field(e.year, YEAR_WIDTH, '-', Field(e.month, FIELD_WIDTH, '-', Field(e.day, FIELD_WIDTH, 'T', b)));
            && (Less(x, y) <==> DateLess(d, e) || (d == e && Less(a, b)))
            && (x == y <==> d == e && a == b)
  {
    Widths();
    FieldOrder(d.day, e.day, FIELD_WIDTH, 'T', a, b);
    var x, y := Field(d.day, FIELD_WIDTH, 'T', a), Field(e.day, FIELD_WIDTH, 'T', b);
    FieldOrder(d.month, e.month, FIELD_WIDTH, '-', x, y);
    FieldOrder(d.year, e.year, YEAR_WIDTH, '-', Field(d.month, FIELD_WIDTH, '-', x), Field(e.month, FIELD_WIDTH, '-', y));
  }

  lemma StorableFields(day: nat)
    requires StorableDay(day)
    ensures var d := DateOf(day); d.year < 10000 && d.month < 100 && d.day < 100
  {
    StorableYears(day, 10000);
  }

  lemma DateFieldsOrder(m: nat, n: nat, a: string, b: string)
    requires StorableDay(m) && StorableDay(n)
    ensures var d, e := DateOf(m), DateOf(n);
            var x := Field(d.year, YEAR_WIDTH, '-', Field(d.month, FIELD_WIDTH, '-', Field(d.day, FIELD_WIDTH, 'T', a)));
            var y := Field(e.year, YEAR_WIDTH, '-', Field(e.month, FIELD_WIDTH, '-', Field(e.day, FIELD_WIDTH, 'T', b)));
            && (Less(x, y) <==> m < n || (m == n && Less(a, b)))
            && (x == y <==> m == n && a == b)
  {
    StorableFields(m);
    StorableFields(n);
    DateOrder(m, n);
    FieldsOrder(DateOf(m), DateOf(n), a, b);
  }

  lemma ClockFieldsOrder(h: nat, m: nat, s: nat, h': nat, m': nat, s': nat)
    requires h < 100 && m < 100 && s < 100 && h' < 100 && m' < 100 && s' < 100
    ensures var x := Field(h, FIELD_WIDTH, ':', Field(m, FIELD_WIDTH, ':', Field(s, FIELD_WIDTH, 'Z', "")));
            var y := Field(h', FIELD_WIDTH, ':', Field(m', FIELD_WIDTH, ':', Field(s', FIELD_WIDTH, 'Z', "")));
            && (Less(x, y) <==> h < h' || (h == h' && (m < m' || (m == m' && s < s'))))
            && (x == y <==> h == h' && m == m' && s == s')
  {
    Widths();
    FieldOrder(s, s', FIELD_WIDTH, 'Z', "", "");
    var x, y := Field(s, FIELD_WIDTH, 'Z', ""), Field(s', FIELD_WIDTH, 'Z', "");
    FieldOrder(m, m', FIELD_WIDTH, ':', x, y);
    FieldOrder(h, h', FIELD_WIDTH, ':', Field(m, FIELD_WIDTH, ':', x), Field(m', FIELD_WIDTH, ':', y));
  }

  lemma ClockParts(m: nat)
    requires m < DAY_SECONDS
    ensures m / 3600 < 24 && m / 60 % 60 < 60 && m % 60 < 60
    ensures m == 3600 * (m / 3600) + 60 * (m / 60 % 60) + m % 60
  {
    assert m / 3600 == m / 60 / 60;
  }

  lemma ClockTextOrder(m: nat, n: nat)
    requires m < DAY_SECONDS && n < DAY_SECONDS
    ensures Less(FormatClock(m), FormatClock(n)) <==> m < n
    ensures FormatClock(m) == FormatClock(n) <==> m == n
  {
    ClockParts(m);
    ClockParts(n);
    ClockFieldsOrder(m / 3600, m / 60 % 60, m % 60, n / 3600, n / 60 % 60, n % 60);
  }

  /** The string comparisons of the store decide time at second precision. */
  lemma StampOrder(a: nat, b: nat)
    requires Storable(a) && Storable(b)
    ensures Less(Format(a), Format(b)) <==> a / SECOND < b / SECOND
    ensures Format(a) == Format(b) <==> a / SECOND == b / SECOND
  {
    var s, u := a / SECOND, b / SECOND;
    ClockTextOrder(s % DAY_SECONDS, u % DAY_SECONDS);
    DateFieldsOrder(s / DAY_SECONDS, u / DAY_SECONDS,
                    FormatClock(s % DAY_SECONDS), FormatClock(u % DAY_SECONDS));
  }

  /** A layout that sorts instants by their second. */
  ghost predicate SortsSeconds(stamp: nat -> string) {
    forall a: nat, b: nat :: Storable(a) && Storable(b) ==> (Less(stamp(a), stamp(b)) <==> a / SECOND < b / SECOND)
  }

  lemma FormatSortsSeconds()
    ensures SortsSeconds(Format)
  {
    forall a: nat, b: nat | Storable(a) && Storable(b)
      ensures Less(Format(a), Format(b)) <==> a / SECOND < b / SECOND
    {
      StampOrder(a, b);
    }
  }

  /** An earlier stored second is an earlier instant, whatever was truncated. */
  lemma EarlierStampIsEarlier(a: nat, b: nat)
    requires Storable(a) && Storable(b)
    ensures Less(Format(a), Format(b)) ==> a < b
    ensures a + SECOND <= b ==> Less(Format(a), Format(b))
  {
    StampOrder(a, b);
  }

  lemma DateTextFields(y: string, m: string, d: string)
    requires |y| == 4 && |m| == |d| == 2
    ensures var s := y + (['-'] + (m + (['-'] + d)));
            && |s| == 10 && s[4] == s[7] == '-'
            && s[..4] == y && s[5..7] == m && s[8..] == d
  {
  }

  /** Dates survive the trip through their text, in both directions. */
  lemma DateTextRoundTrip(day: nat)
    requires StorableDay(day)
    ensures ParseDate(FormatDate(day)) == Some(day)
  {
    StorableFields(day);
    Widths();
    var d := DateOf(day);
    DateTextFields(Pad(d.year, YEAR_WIDTH), Pad(d.month, FIELD_WIDTH), Pad(d.day, FIELD_WIDTH));
    PadRoundTrip(d.year, YEAR_WIDTH);
    PadRoundTrip(d.month, FIELD_WIDTH);
    PadRoundTrip(d.day, FIELD_WIDTH);
  }

  lemma ParsedDateIsItsText(s: string)
    requires ParseDate(s).Some?
    ensures FormatDate(ParseDate(s).value) == s
    ensures StorableDay(ParseDate(s).value)
  {
    Widths();
    ValueRoundTrip(s[..4]);
    ValueRoundTrip(s[5..7]);
    ValueRoundTrip(s[8..]);
    var d := Date(Value(s[..4]), Value(s[5..7]), Value(s[8..]));
    DateRoundTrip(d);
    StorableYears(DayNumber(d), 10000);
    assert s == s[..4] + ("-" + (s[5..7] + ("-" + s[8..])));
  }

  // ----- What the texts say -----

  /** A stored timestamp spells its date, hour, minute and second, which count
      exactly the whole seconds of the instant. */
  lemma StampSpellsInstant(t: nat) returns (d: Date, h: nat, m: nat, s: nat)
    ensures ValidDate(d) && h < 24 && m < 60 && s < 60
    ensures ((DayNumber(d) * 24 + h) * 60 + m) * 60 + s == t / 1_000_000_000
    ensures Format(t) == Pad(d.year, YEAR_WIDTH) + "-" + Pad(d.month, FIELD_WIDTH) + "-" + Pad(d.day, FIELD_WIDTH) + "T" +
                         Pad(h, FIELD_WIDTH) + ":" + Pad(m, FIELD_WIDTH) + ":" + Pad(s, FIELD_WIDTH) + "Z"
  {
    var sec := t / SECOND;
    var clock := sec % DAY_SECONDS;
    d, h, m, s := DateOf(sec / DAY_SECONDS), clock / 3600, clock / 60 % 60, clock % 60;
    ClockParts(clock);
    SpelledOut(Pad(d.year, YEAR_WIDTH), Pad(d.month, FIELD_WIDTH), Pad(d.day, FIELD_WIDTH), Pad(h, FIELD_WIDTH), Pad(m, FIELD_WIDTH), Pad(s, FIELD_WIDTH));
  }

  lemma SpelledOut(y: string, mo: string, d: string, h: string, mi: string, s: string)
    ensures y + ("-" + (mo + ("-" + (d + ("T" + (h + (":" + (mi + (":" + (s + ("Z" + "")))))))))))
            == y + "-" + mo + "-" + d + "T" + h + ":" + mi + ":" + s + "Z"
  {
  }

  /** A date text spells its date. */
  lemma DateTextSpellsDate(day: nat)
    ensures var d := DateOf(day);
            FormatDate(day) == Pad(d.year, YEAR_WIDTH) + "-" + Pad(d.month, FIELD_WIDTH) + "-" + Pad(d.day, FIELD_WIDTH)
  {
  }

  /** The date part of a timestamp is the date text of its day. */
  lemma DatePart(t: nat)
    ensures |Format(t)| >= 10 && Format(t)[..10] == FormatDate(t / 1_000_000_000 / 86400)
  {
    var d := DateOf(t / SECOND / DAY_SECONDS);
    var rest := FormatClock(t / SECOND % DAY_SECONDS);
    TakeDate(Pad(d.year, YEAR_WIDTH), Pad(d.month, FIELD_WIDTH), Pad(d.day, FIELD_WIDTH), rest);
  }

  lemma TakeDate(y: string, m: string, d: string, rest: string)
    requires |y| == 4 && |m| == |d| == 2
    ensures (y + (['-'] + (m + (['-'] + (d + (['T'] + rest))))))[..10] == y + (['-'] + (m + (['-'] + d)))
  {
  }

  /** The text of the epoch reads as day 719528. */
  lemma EpochParses(text: string)
    requires text == "1970-01-01"
    ensures ParseDate(text) == Some(719528)
  {
    var y, m, d := text[..4], text[5..7], text[8..];
    assert y == "1970" && m == "01" && d == "01";
    FourDigits(y);
    TwoDigits(m);
    TwoDigits(d);
    EpochDay(Value(y));
  }

  lemma TwoDigits(s: string)
    requires |s| == 2 && AllDigits(s)
    ensures Value(s) == 10 * (s[0] as int - 48) + (s[1] as int - 48)
  {
    assert s[..1][..0] == [];
    assert Value(s[..1]) == 10 * Value(s[..1][..0]) + (s[0] as int - 48);
  }

  lemma FourDigits(s: string)
    requires |s| == 4 && AllDigits(s)
    ensures Value(s) == 100 * Value(s[..2]) + 10 * (s[2] as int - 48) + (s[3] as int - 48)
    ensures Value(s[..2]) == 10 * (s[0] as int - 48) + (s[1] as int - 48)
  {
    assert s[..3][..2] == s[..2];
    TwoDigits(s[..2]);
  }
}
