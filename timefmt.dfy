/**
 * The parts of Go's `time` package the sync engine relies on, at second
 * precision: instants with a fixed zone offset, the RFC 3339 layout
 * (section 5.6 of RFC 3339) used for the checkpoint and for git's dates,
 * the `DateOnly` layout that names the daily files, the
 * "2006-01-02 15:04:05" stamp, and `AddDate`.
 */
module TimeFormat {

  import opened Wrappers
  import opened Decimal
  import opened Calendar

  /** An instant (seconds since 1970-01-01T00:00:00Z) seen in a zone `offset` seconds east of UTC. */
  datatype Time = Time(unix: int, offset: int)

  /** Broken-down local time. */
  datatype Fields = Fields(date: Date, hour: nat, minute: nat, second: nat)

  const SecondsPerDay := 86400

  function LocalSeconds(t: Time): int {
    t.unix + t.offset
  }

  /** Fields that name a real moment: a valid date, hours 0-23, minutes and seconds 0-59. */
  predicate ValidFields(f: Fields) {
    ValidDate(f.date) && 0 <= f.hour < 24 && 0 <= f.minute < 60 && 0 <= f.second < 60
  }

  /** Local seconds since 1970-01-01T00:00:00 named by broken-down fields. */
  function SecondsOf(f: Fields): int
    requires 1 <= f.date.month <= 12
  {
    DaysFromCivil(f.date.year, f.date.month, f.date.day) * 86400 + ClockSeconds(f)
  }

  /** Seconds since local midnight. */
  function ClockSeconds(f: Fields): int {
    f.hour * 3600 + f.minute * 60 + f.second
  }

  function FieldsOf(t: Time): Fields {
    var local := LocalSeconds(t);
    var sod := local % 86400;
    Fields(CivilFromDays(local / 86400), sod / 3600, sod % 3600 / 60, sod % 60)
  }

  /** The fields of an instant are a valid date and clock time, and they add back up to it. */
  lemma FieldsOfValid(t: Time)
    ensures ValidFields(FieldsOf(t)) && SecondsOf(FieldsOf(t)) == LocalSeconds(t)
  {
    var local := LocalSeconds(t);
    SplitSeconds(local);
    CivilFromDaysInverse(local / 86400);
  }

  lemma SplitSeconds(local: int)
    ensures var sod := local % 86400;
      local == local / 86400 * 86400 + sod / 3600 * 3600 + sod % 3600 / 60 * 60 + sod % 60
      && sod / 3600 < 24
  {
    var sod := local % 86400;
    assert local == local / 86400 * 86400 + sod;
    var rest := sod % 3600;
    assert sod == sod / 3600 * 3600 + rest;
    assert rest == rest / 60 * 60 + rest % 60;
    assert rest % 60 == sod % 60;
  }

  /** The local calendar day of `t`, as a day number. */
  function LocalDay(t: Time): int {
    LocalSeconds(t) / 86400
  }

  /** A number zero-padded to at least `2` (or `4`) digits, with a leading minus sign when negative. */
  function Pad(n: int, width: nat): (s: string)
    requires width == 2 || width == 4
  {
    if n < 0 then "-" + PadNat(-n, width) else PadNat(n, width)
  }

  function PadNat(n: nat, width: nat): (s: string)
    requires width == 2 || width == 4
  {
    if width == 2 && n < 100 then Fixed2(n)
    else if width == 4 && n < 10000 then Fixed4(n)
    else NatText(n)
  }

  /** Layout "2006-01-02" applied to a date. */
  function DateText(d: Date): string {
    Pad(d.year, 4) + "-" + Pad(d.month, 2) + "-" + Pad(d.day, 2)
  }

  /** Layout "15:04:05" applied to broken-down time. */
  function ClockText(f: Fields): string {
    Pad(f.hour, 2) + ":" + Pad(f.minute, 2) + ":" + Pad(f.second, 2)
  }

  /** Go's `offset / 60`, which truncates toward zero. */
  function OffsetMinutes(offset: int): int {
    if offset < 0 then -((-offset) / 60) else offset / 60
  }

  /** Layout element "Z07:00": `Z` for UTC, otherwise a sign, hours and minutes. */
  function ZoneText(offset: int): string {
    var minutes := OffsetMinutes(offset);
    var magnitude := if minutes < 0 then -minutes else minutes;
    if offset == 0 then "Z"
    else (if minutes < 0 then "-" else "+") + Pad(magnitude / 60, 2) + ":" + Pad(magnitude % 60, 2)
  }

  /** The RFC 3339 text of local fields and an offset, as section 5.6 of RFC 3339 lays it out. */
  function RFC3339Text(f: Fields, offset: int): string {
    DateText(f.date) + "T" + ClockText(f) + ZoneText(offset)
  }

  /** The elements of Go's layout strings that the program's layouts use. */
  datatype LayoutElem =
    | LongYear    // "2006"
    | ZeroMonth   // "01"
    | ZeroDay     // "02"
    | Hour        // "15"
    | ZeroMinute  // "04"
    | ZeroSecond  // "05"
    | ColonZone   // "Z07:00"
    | Literal(c: char)

  /** Layout `time.DateOnly`, "2006-01-02". */
  const DateLayout: seq<LayoutElem> := [LongYear, Literal('-'), ZeroMonth, Literal('-'), ZeroDay]

  /** Layout "15:04:05". */
  const ClockLayout: seq<LayoutElem> := [Hour, Literal(':'), ZeroMinute, Literal(':'), ZeroSecond]

  /** Layout "2006-01-02 15:04:05". */
  const StampLayout: seq<LayoutElem> := DateLayout + [Literal(' ')] + ClockLayout

  /** Layout `time.RFC3339`, "2006-01-02T15:04:05Z07:00". */
  const RFC3339Layout: seq<LayoutElem> := DateLayout + [Literal('T')] + ClockLayout + [ColonZone]

  function ElemText(e: LayoutElem, f: Fields, offset: int): string {
    match e
    case LongYear => Pad(f.date.year, 4)
    case ZeroMonth => Pad(f.date.month, 2)
    case ZeroDay => Pad(f.date.day, 2)
    case Hour => Pad(f.hour, 2)
    case ZeroMinute => Pad(f.minute, 2)
    case ZeroSecond => Pad(f.second, 2)
    case ColonZone => ZoneText(offset)
    case Literal(c) => [c]
  }

  /** `Format` with a layout: each element in turn, rendered from the local fields and the offset. */
  function Format(layout: seq<LayoutElem>, f: Fields, offset: int): string
    decreases |layout|
  {
    if layout == [] then [] else ElemText(layout[0], f, offset) + Format(layout[1..], f, offset)
  }

  /** `t.Format(time.DateOnly)`, in the zone of `t`. */
  function DateOnly(t: Time): string {
    Format(DateLayout, FieldsOf(t), t.offset)
  }

  /** `t.Format("2006-01-02 15:04:05")`, the stamp of the daily lines and of the commit messages. */
  function Stamp(t: Time): string {
    Format(StampLayout, FieldsOf(t), t.offset)
  }

  /** `t.Format(time.RFC3339)`. */
  function FormatRFC3339(t: Time): string {
    Format(RFC3339Layout, FieldsOf(t), t.offset)
  }

  /** Formatting with two layouts one after the other is formatting with each in turn. */
  lemma {:induction false} FormatAppend(a: seq<LayoutElem>, b: seq<LayoutElem>, f: Fields, offset: int)
    ensures Format(a + b, f, offset) == Format(a, f, offset) + Format(b, f, offset)
    decreases |a|
  {
    if a == [] {
      assert a + b == b;
    } else {
      assert (a + b)[0] == a[0] && (a + b)[1..] == a[1..] + b;
      FormatAppend(a[1..], b, f, offset);
    }
  }

  /** A layout that starts with `e` prints `e` and then the rest. */
  lemma FormatCons(e: LayoutElem, rest: seq<LayoutElem>, f: Fields, offset: int)
    ensures Format([e] + rest, f, offset) == ElemText(e, f, offset) + Format(rest, f, offset)
  {
    assert ([e] + rest)[1..] == rest;
  }

  /** The `DateOnly` layout prints the date of the fields. */
  lemma FormatDate(f: Fields, offset: int)
    ensures Format(DateLayout, f, offset) == DateText(f.date)
  {
    var y, m, d := Pad(f.date.year, 4), Pad(f.date.month, 2), Pad(f.date.day, 2);
    FormatOne(ZeroDay, f, offset);
    FormatCons(Literal('-'), [ZeroDay], f, offset);
    assert [Literal('-')] + [ZeroDay] == [Literal('-'), ZeroDay];
    FormatCons(ZeroMonth, [Literal('-'), ZeroDay], f, offset);
    assert [ZeroMonth] + [Literal('-'), ZeroDay] == [ZeroMonth, Literal('-'), ZeroDay];
    FormatCons(Literal('-'), [ZeroMonth, Literal('-'), ZeroDay], f, offset);
    assert [Literal('-')] + [ZeroMonth, Literal('-'), ZeroDay] == DateLayout[1..];
    FormatCons(LongYear, DateLayout[1..], f, offset);
    assert [LongYear] + DateLayout[1..] == DateLayout;
    assert Format(DateLayout, f, offset) == y + ("-" + (m + ("-" + d)));
  }

  /** The layout "15:04:05" prints the clock of the fields. */
  lemma FormatClock(f: Fields, offset: int)
    ensures Format(ClockLayout, f, offset) == ClockText(f)
  {
    var h, m, s := Pad(f.hour, 2), Pad(f.minute, 2), Pad(f.second, 2);
    FormatOne(ZeroSecond, f, offset);
    FormatCons(Literal(':'), [ZeroSecond], f, offset);
    assert [Literal(':')] + [ZeroSecond] == [Literal(':'), ZeroSecond];
    FormatCons(ZeroMinute, [Literal(':'), ZeroSecond], f, offset);
    assert [ZeroMinute] + [Literal(':'), ZeroSecond] == [ZeroMinute, Literal(':'), ZeroSecond];
    FormatCons(Literal(':'), [ZeroMinute, Literal(':'), ZeroSecond], f, offset);
    assert [Literal(':')] + [ZeroMinute, Literal(':'), ZeroSecond] == ClockLayout[1..];
    FormatCons(Hour, ClockLayout[1..], f, offset);
    assert [Hour] + ClockLayout[1..] == ClockLayout;
    assert Format(ClockLayout, f, offset) == h + (":" + (m + (":" + s)));
  }

  /** A layout of one element prints that element. */
  lemma FormatOne(e: LayoutElem, f: Fields, offset: int)
    ensures Format([e], f, offset) == ElemText(e, f, offset)
  {
    assert [e][1..] == [];
  }

  /** The layout "2006-01-02 15:04:05" prints the date, a space and the clock. */
  lemma FormatStamp(f: Fields, offset: int)
    ensures Format(StampLayout, f, offset) == DateText(f.date) + " " + ClockText(f)
  {
    FormatDate(f, offset);
    FormatClock(f, offset);
    FormatAppend(DateLayout + [Literal(' ')], ClockLayout, f, offset);
    FormatAppend(DateLayout, [Literal(' ')], f, offset);
    FormatOne(Literal(' '), f, offset);
  }

  /** The layout `time.RFC3339` prints the text section 5.6 of RFC 3339 describes. */
  lemma FormatRFC3339Fields(f: Fields, offset: int)
    ensures Format(RFC3339Layout, f, offset) == RFC3339Text(f, offset)
  {
    FormatDate(f, offset);
    FormatClock(f, offset);
    FormatAppend(DateLayout + [Literal('T')] + ClockLayout, [ColonZone], f, offset);
    FormatAppend(DateLayout + [Literal('T')], ClockLayout, f, offset);
    FormatAppend(DateLayout, [Literal('T')], f, offset);
    FormatOne(Literal('T'), f, offset);
    FormatOne(ColonZone, f, offset);
  }

  /** The `DateOnly` text is the date of the local fields. */
  lemma DateOnlyText(t: Time)
    ensures DateOnly(t) == DateText(FieldsOf(t).date)
  {
    FormatDate(FieldsOf(t), t.offset);
  }

  /** The stamp is the local date, a space, and the local clock. */
  lemma StampText(t: Time)
    ensures Stamp(t) == DateText(FieldsOf(t).date) + " " + ClockText(FieldsOf(t))
  {
    FormatStamp(FieldsOf(t), t.offset);
  }

  lemma FormatRFC3339Text(t: Time)
    ensures FormatRFC3339(t) == RFC3339Text(FieldsOf(t), t.offset)
  {
    FormatRFC3339Fields(FieldsOf(t), t.offset);
  }

  /**
   * The instants whose RFC 3339 text reads back as themselves: a four-digit
   * local year and a zone offset of whole minutes under a day.
   */
  predicate WellFormed(t: Time) {
    var y := FieldsOf(t).date.year;
    0 <= y < 10000 && t.offset % 60 == 0 && -SecondsPerDay < t.offset < SecondsPerDay
  }

  datatype ParseError = Malformed | OutOfRange

  /** Drops a fractional second (`.` or `,` then digits), which the second-precision model ignores. */
  function SkipFraction(r: string): (rest: string)
    ensures |rest| <= |r|
  {
    if |r| >= 2 && (r[0] == '.' || r[0] == ',') && IsDigit(r[1]) then SkipDigits(r[1..]) else r
  }

  function SkipDigits(r: string): (rest: string)
    ensures |rest| <= |r|
  {
    if |r| > 0 && IsDigit(r[0]) then SkipDigits(r[1..]) else r
  }

  /** The zone offset in seconds: `Z`, or `+hh:mm` / `-hh:mm` with hours below 24 and minutes below 60. */
  function ParseZone(z: string): (r: Result<int, ParseError>)
  {
    if z == "Z" then Ok(0)
    else if |z| == 6 && (z[0] == '+' || z[0] == '-') && AllDigits(z[1..3]) && z[3] == ':' && AllDigits(z[4..6]) then
      var h, m := DigitsValue(z[1..3]), DigitsValue(z[4..6]);
      var magnitude := h * 3600 + m * 60;
      if h < 24 && m < 60 then Ok(if z[0] == '-' then -magnitude else magnitude)
      else Err(OutOfRange)
    else Err(Malformed)
  }

  predicate RFC3339Shape(s: string) {
    |s| >= 20 &&
    AllDigits(s[0..4]) && s[4] == '-' && AllDigits(s[5..7]) && s[7] == '-' && AllDigits(s[8..10]) &&
    s[10] == 'T' &&
    AllDigits(s[11..13]) && s[13] == ':' && AllDigits(s[14..16]) && s[16] == ':' && AllDigits(s[17..19])
  }

  /** The date and clock fields of a text of RFC 3339 shape. */
  function FieldsText(s: string): Fields
    requires RFC3339Shape(s)
  {
    Fields(Date(DigitsValue(s[0..4]), DigitsValue(s[5..7]), DigitsValue(s[8..10])),
           DigitsValue(s[11..13]), DigitsValue(s[14..16]), DigitsValue(s[17..19]))
  }

  /** `time.Parse(time.RFC3339, s)` at second precision. */
  function ParseRFC3339(s: string): (r: Result<Time, ParseError>)
  {
    if !RFC3339Shape(s) then Err(Malformed)
    else
      match ParseZone(SkipFraction(s[19..]))
      case Err(e) => Err(e)
      case Ok(offset) =>
        var f := FieldsText(s);
        if !ValidFields(f) then Err(OutOfRange) else Ok(Time(SecondsOf(f) - offset, offset))
  }

  /** A `±hh:mm` text reads back as its signed number of seconds. */
  lemma SignedZoneText(sign: char, hh: nat, mm: nat)
    requires sign == '+' || sign == '-'
    requires hh < 24 && mm < 60
    ensures var z := [sign] + Fixed2(hh) + ":" + Fixed2(mm);
      SkipFraction(z) == z &&
      ParseZone(z) == Ok(if sign == '-' then -(hh * 3600 + mm * 60) else hh * 3600 + mm * 60)
  {
    var z := [sign] + Fixed2(hh) + ":" + Fixed2(mm);
    Fixed2Digits(hh);
    Fixed2Digits(mm);
    assert z[1..3] == Fixed2(hh) && z[4..6] == Fixed2(mm);
  }

  /** Hours and minutes of a whole-minute offset under a day. */
  lemma OffsetParts(offset: int)
    requires offset != 0 && offset % 60 == 0 && -SecondsPerDay < offset < SecondsPerDay
    ensures var minutes := OffsetMinutes(offset);
      var magnitude := if minutes < 0 then -minutes else minutes;
      && (minutes < 0 <==> offset < 0)
      && magnitude / 60 < 24
      && magnitude / 60 * 3600 + magnitude % 60 * 60 == (if offset < 0 then -offset else offset)
  {
    var a := if offset < 0 then -offset else offset;
    var minutes := OffsetMinutes(offset);
    var magnitude := if minutes < 0 then -minutes else minutes;
    assert magnitude == a / 60;
    assert magnitude * 60 == a;
    assert magnitude / 60 * 60 + magnitude % 60 == magnitude;
  }

  lemma ZoneRoundTrip(offset: int)
    requires offset % 60 == 0 && -SecondsPerDay < offset < SecondsPerDay
    ensures ParseZone(SkipFraction(ZoneText(offset))) == Ok(offset)
  {
    if offset != 0 {
      var minutes := OffsetMinutes(offset);
      var magnitude := if minutes < 0 then -minutes else minutes;
      var sign := if minutes < 0 then '-' else '+';
      OffsetParts(offset);
      assert ZoneText(offset) == [sign] + Fixed2(magnitude / 60) + ":" + Fixed2(magnitude % 60);
      SignedZoneText(sign, magnitude / 60, magnitude % 60);
    }
  }

  /** Where each field of an RFC 3339 text sits. */
  lemma RFC3339Slices(y: string, mo: string, d: string, h: string, mi: string, sec: string, z: string)
    requires |y| == 4 && |mo| == 2 && |d| == 2 && |h| == 2 && |mi| == 2 && |sec| == 2
    ensures var s := (y + "-" + mo + "-" + d) + "T" + (h + ":" + mi + ":" + sec) + z;
      && |s| == 19 + |z|
      && s[0..4] == y && s[4] == '-' && s[5..7] == mo && s[7] == '-' && s[8..10] == d && s[10] == 'T'
      && s[11..13] == h && s[13] == ':' && s[14..16] == mi && s[16] == ':' && s[17..19] == sec && s[19..] == z
  {
  }

  /** Fields that print at fixed width. */
  predicate FixedWidth(f: Fields) {
    0 <= f.date.year < 10000 && 0 <= f.date.month < 100 && 0 <= f.date.day < 100 &&
    0 <= f.hour < 100 && 0 <= f.minute < 100 && 0 <= f.second < 100
  }

  lemma ValidFieldsFixedWidth(f: Fields)
    requires ValidFields(f) && 0 <= f.date.year < 10000
    ensures FixedWidth(f)
  {
  }

  /** RFC 3339 text of fixed-width fields has the RFC 3339 shape and reads back as those fields. */
  lemma TextOfFields(f: Fields, offset: int)
    requires FixedWidth(f)
    ensures var s := RFC3339Text(f, offset);
      RFC3339Shape(s) && FieldsText(s) == f && s[19..] == ZoneText(offset)
  {
    var z := ZoneText(offset);
    assert z != [];
    Fixed4Digits(f.date.year);
    Fixed2Digits(f.date.month);
    Fixed2Digits(f.date.day);
    Fixed2Digits(f.hour);
    Fixed2Digits(f.minute);
    Fixed2Digits(f.second);
    RFC3339Slices(Fixed4(f.date.year), Fixed2(f.date.month), Fixed2(f.date.day),
                  Fixed2(f.hour), Fixed2(f.minute), Fixed2(f.second), z);
  }

  /** RFC 3339 text of fixed-width fields starts with a digit and ends with `Z` or a digit. */
  lemma RFC3339TextEnds(f: Fields, offset: int)
    requires FixedWidth(f)
    ensures var s := RFC3339Text(f, offset); s != [] && IsDigit(s[0]) && (IsDigit(s[|s| - 1]) || s[|s| - 1] == 'Z')
  {
    var s, z := RFC3339Text(f, offset), ZoneText(offset);
    Fixed4Digits(f.date.year);
    assert s[0] == Fixed4(f.date.year)[0];
    if offset != 0 {
      var minutes := OffsetMinutes(offset);
      var magnitude := if minutes < 0 then -minutes else minutes;
      Fixed2Digits(magnitude % 60);
      assert z[|z| - 1] == Fixed2(magnitude % 60)[1];
    }
    assert s[|s| - 1] == z[|z| - 1];
  }

  lemma TextRoundTrip(f: Fields, unix: int, offset: int)
    requires ValidFields(f) && 0 <= f.date.year < 10000 && SecondsOf(f) == unix + offset
    requires offset % 60 == 0 && -SecondsPerDay < offset < SecondsPerDay
    ensures ParseRFC3339(RFC3339Text(f, offset)) == Ok(Time(unix, offset))
  {
    ValidFieldsFixedWidth(f);
    TextOfFields(f, offset);
    ZoneRoundTrip(offset);
    ParseOfParts(RFC3339Text(f, offset), f, unix, offset);
  }

  /** A checkpoint written in RFC 3339 reads back as the same instant and zone. */
  lemma {:induction false} RFC3339RoundTrip(t: Time)
    requires WellFormed(t)
    ensures ParseRFC3339(FormatRFC3339(t)) == Ok(t)
  {
    FormatRFC3339Text(t);
    FieldsOfValid(t);
    TextRoundTrip(FieldsOf(t), t.unix, t.offset);
  }

  lemma ParseOfParts(s: string, f: Fields, unix: int, offset: int)
    requires RFC3339Shape(s) && ParseZone(SkipFraction(s[19..])) == Ok(offset)
    requires FieldsText(s) == f && ValidFields(f) && SecondsOf(f) == unix + offset
    ensures ParseRFC3339(s) == Ok(Time(unix, offset))
  {
  }

  /** The date text of a date with a four-digit year reads back as that date. */
  lemma DateTextFields(d: Date)
    requires ValidDate(d) && 0 <= d.year < 10000
    ensures var s := DateText(d);
      |s| == 10 && DigitsValue(s[0..4]) == d.year && DigitsValue(s[5..7]) == d.month && DigitsValue(s[8..10]) == d.day
  {
    var s := DateText(d);
    Fixed4Digits(d.year);
    Fixed2Digits(d.month);
    Fixed2Digits(d.day);
    assert s == Fixed4(d.year) + "-" + Fixed2(d.month) + "-" + Fixed2(d.day);
    assert s[0..4] == Fixed4(d.year) && s[5..7] == Fixed2(d.month) && s[8..10] == Fixed2(d.day);
  }

  /**
   * Two instants with four-digit local years get the same `DateOnly` text
   * exactly when they fall on the same local calendar day.
   */
  lemma {:induction false} DateOnlySameDay(a: Time, b: Time)
    requires 0 <= FieldsOf(a).date.year < 10000 && 0 <= FieldsOf(b).date.year < 10000
    ensures DateOnly(a) == DateOnly(b) <==> LocalDay(a) == LocalDay(b)
  {
    var da, db := FieldsOf(a).date, FieldsOf(b).date;
    DateOnlyText(a);
    DateOnlyText(b);
    FieldsOfValid(a);
    FieldsOfValid(b);
    assert da == CivilFromDays(LocalDay(a)) && db == CivilFromDays(LocalDay(b));
    if DateOnly(a) == DateOnly(b) {
      DateTextFields(da);
      DateTextFields(db);
      assert da == db;
    }
  }

  /**
   * The day number of `d` shifted by `years`, `months` and `days` as Go's
   * `time.Date` normalises it: months beyond the year carry into it, and a
   * day beyond its month's end counts on into the next month.
   */
  function ShiftedDay(d: Date, years: int, months: int, days: int): int
    requires 1 <= d.month <= 12
  {
    var m0 := d.month - 1 + months;
    DaysFromCivil(d.year + years + m0 / 12, m0 % 12 + 1, d.day + days)
  }

  /** Go's `t.AddDate(years, months, days)`; the clock and the zone offset are kept. */
  function AddDate(t: Time, years: int, months: int, days: int): Time {
    FieldsOfValid(t);
    var f := FieldsOf(t);
    Time(ShiftedDay(f.date, years, months, days) * 86400 + ClockSeconds(f) - t.offset, t.offset)
  }

  /** Three years and six months before a date is at least three 365-day years before it. */
  lemma DaysBack(d: Date)
    requires 1 <= d.month <= 12
    ensures ShiftedDay(d, -3, -6, 0) + 1095 <= DaysFromCivil(d.year, d.month, d.day)
  {
    var y, m := d.year, d.month;
    var y', m' := y - 3 + (m - 7) / 12, (m - 7) % 12 + 1;
    if m >= 7 {
      assert y' == y - 3 && m' == m - 6;
      YearsSpan(y - 3, y);
      assert DaysBeforeMonth(y', m') <= 152 && DaysBeforeMonth(y, m) >= 181;
    } else {
      assert y' == y - 4 && m' == m + 6;
      YearsSpan(y - 4, y);
    }
  }

  /** The default checkpoint, `now.AddDate(-3, -6, 0)`, lies at least 1095 days before `now`. */
  lemma {:induction false} ThreeAndAHalfYearsBack(now: Time)
    ensures AddDate(now, -3, -6, 0).unix + 1095 * 86400 <= now.unix
  {
    FieldsOfValid(now);
    DaysBack(FieldsOf(now).date);
  }
}
