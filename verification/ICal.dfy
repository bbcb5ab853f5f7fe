/** The iCalendar encoder (VCALENDAR and VEVENT of section 3.6 of RFC 5545) and a reference reader. */
module ICal {
  import opened DispatchLog
  import opened SendTime
  import opened Civil
  import opened ICalText

  const MINUTE: int := 60_000_000_000
  const SECOND: int := 1_000_000_000

  datatype Event = Event(
    uid: string,
    summary: string,
    description: string,
    location: string,
    url: string,
    start: Instant,
    end: Instant,
    allDay: bool)

  // The Version field of the source's struct is never printed.
  datatype Calendar = Calendar(prodId: string, events: seq<Event>)

  // ---------------------------------------------------------------- dates and times

  function Digit(d: nat): char
    requires d < 10
  {
    ('0' as int + d) as char
  }

  // A natural number with leading zeros up to a width, as Go prints it.
  function Decimal(n: nat, width: nat): string
    decreases n, width
  {
    if n == 0 && width == 0 then ""
    else Decimal(n / 10, if width == 0 then 0 else width - 1) + [Digit(n % 10)]
  }

  function Padded(n: int, width: nat): string {
    if n < 0 then "-" + Decimal(-n, width) else Decimal(n, width)
  }

  // t.UTC().Format("20060102")
  function DateText(t: Instant): string {
    var d := DateOf(t / DAY);
    Padded(d.year, 4) + Padded(d.month, 2) + Padded(d.day, 2)
  }

  function ClockText(r: int): string {
    "T" + Padded(r / HOUR, 2) + Padded(r % HOUR / MINUTE, 2) + Padded(r % MINUTE / SECOND, 2) + "Z"
  }

  // t.UTC().Format("20060102T150405Z")
  function DateTimeText(t: Instant): string {
    DateText(t) + ClockText(t % DAY)
  }

  function Numeral(n: nat): char
    requires n < 10
  {
    "0123456789"[n]
  }

  lemma LastDigit(q: nat, r: nat, width: nat)
    requires r < 10
    ensures Decimal(q * 10 + r, width + 1) == Decimal(q, width) + [Numeral(r)]
  {
    assert (q * 10 + r) / 10 == q && (q * 10 + r) % 10 == r;
  }

  lemma TwoNumerals(n: nat)
    requires n < 100
    ensures Decimal(n, 2) == [Numeral(n / 10), Numeral(n % 10)]
  {
    LastDigit(n / 10, n % 10, 1);
    LastDigit(0, n / 10, 0);
  }

  lemma ThreeNumerals(a: nat, b: nat, c: nat, n: nat)
    requires a < 10 && b < 10 && c < 10 && n == (a * 10 + b) * 10 + c
    ensures Decimal(n, 3) == [Numeral(a), Numeral(b), Numeral(c)]
  {
    LastDigit(a * 10 + b, c, 2);
    LastDigit(a, b, 1);
    LastDigit(0, a, 0);
  }

  lemma FourNumerals(a: nat, b: nat, c: nat, d: nat, n: nat)
    requires a < 10 && b < 10 && c < 10 && d < 10 && n == ((a * 10 + b) * 10 + c) * 10 + d
    ensures Decimal(n, 4) == [Numeral(a), Numeral(b), Numeral(c), Numeral(d)]
  {
    var front := (a * 10 + b) * 10 + c;
    LastDigit(front, d, 3);
    ThreeNumerals(a, b, c, front);
  }

  lemma YearDigits(n: nat)
    requires n < 10_000
    ensures n == ((n / 1000 * 10 + n / 100 % 10) * 10 + n / 10 % 10) * 10 + n % 10 && n / 1000 < 10
  {}

  /** A time is printed as the Gregorian date reached by counting from January 1st of year 1, digit by digit, */
  lemma DateTextIs(y: nat, m: nat, d: nat, t: Instant)
    requires 1 <= y <= 9999 && 1 <= m <= 12 && 1 <= d <= DaysIn(y, m)
    requires t / 86_400_000_000_000 == Counted(y, m, d)
    ensures DateText(t) == [
        Numeral(y / 1000), Numeral(y / 100 % 10), Numeral(y / 10 % 10), Numeral(y % 10),
        Numeral(m / 10), Numeral(m % 10), Numeral(d / 10), Numeral(d % 10)]
  {
    DateIsCounted(y, m, d);
    YearDigits(y);
    FourNumerals(y / 1000, y / 100 % 10, y / 10 % 10, y % 10, y);
    TwoNumerals(m);
    TwoNumerals(d);
  }

  /** and as the hours, minutes and seconds of its day. */
  lemma ClockTextIs(h: nat, m: nat, s: nat, rest: nat)
    requires h < 24 && m < 60 && s < 60 && rest < 1_000_000_000
    ensures ClockText(h * 3_600_000_000_000 + m * 60_000_000_000 + s * 1_000_000_000 + rest) == [
        'T', Numeral(h / 10), Numeral(h % 10), Numeral(m / 10), Numeral(m % 10), Numeral(s / 10), Numeral(s % 10), 'Z']
  {
    ClockSplit(h, m, s, rest, h * 3_600_000_000_000 + m * 60_000_000_000 + s * 1_000_000_000 + rest);
    TwoNumerals(h);
    TwoNumerals(m);
    TwoNumerals(s);
  }

  lemma ClockSplit(h: nat, m: nat, s: nat, rest: nat, r: int)
    requires h < 24 && m < 60 && s < 60 && rest < 1_000_000_000
    requires r == h * 3_600_000_000_000 + m * 60_000_000_000 + s * 1_000_000_000 + rest
    ensures r / HOUR == h && r % HOUR / MINUTE == m && r % MINUTE / SECOND == s
  {
    ByHour(h, m * 60_000_000_000 + s * 1_000_000_000 + rest);
    ByMinute(m, s * 1_000_000_000 + rest);
    ByMinute(h * 60 + m, s * 1_000_000_000 + rest);
  }

  lemma ByHour(q: int, x: int)
    requires 0 <= x < 3_600_000_000_000
    ensures var r := q * 3_600_000_000_000 + x; r / HOUR == q && r % HOUR == x
  {}

  lemma ByMinute(q: int, x: int)
    requires 0 <= x < 60_000_000_000
    ensures var r := q * 60_000_000_000 + x; r / MINUTE == q && r % MINUTE == x
  {}

  // ---------------------------------------------------------------- encoder

  // Property names, the DATE forms with their parameter.
  const BEGIN := "BEGIN"
  const END := "END"
  const VERSION := "VERSION"
  const PRODID := "PRODID"
  const CALSCALE := "CALSCALE"
  const METHOD := "METHOD"
  const UID := "UID"
  const SUMMARY := "SUMMARY"
  const DTSTART_DATE := "DTSTART;VALUE=DATE"
  const DTEND_DATE := "DTEND;VALUE=DATE"
  const DTSTART := "DTSTART"
  const DTEND := "DTEND"
  const DESCRIPTION := "DESCRIPTION"
  const LOCATION := "LOCATION"
  const URL := "URL"
  const VCALENDAR := "VCALENDAR"
  const VEVENT := "VEVENT"
  const TWO := "2.0"
  const GREGORIAN := "GREGORIAN"
  const PUBLISH := "PUBLISH"

  /** One content line; the fixed ones and the times are written as they are, the rest is folded. */
  datatype Field = Field(name: string, value: string, folded: bool)

  function Line(f: Field): string {
    f.name + ":" + f.value
  }

  function Printed(f: Field): string {
    (if f.folded then Fold(Line(f)) else Line(f)) + CRLF
  }

  function Texts(fields: seq<Field>): seq<string> {
    seq(|fields|, i requires 0 <= i < |fields| => Printed(fields[i]))
  }

  function Print(fields: seq<Field>): string {
    Concat(Texts(fields))
  }

  /** An event with its values as they are printed; an empty optional text and an absent end are left out. */
  datatype Raw = Raw(
    uid: string,
    summary: string,
    description: string,
    location: string,
    url: string,
    start: string,
    end: Option<string>,
    allDay: bool)

  function TimeText(allDay: bool, t: Instant): string {
    if allDay then DateText(t) else DateTimeText(t)
  }

  function EndText(allDay: bool, t: Instant): Option<string> {
    if t == 0 then None else Some(TimeText(allDay, t))
  }

  function RawOf(e: Event): Raw {
    Raw(e.uid, EscapeText(e.summary), EscapeText(e.description), EscapeText(e.location), e.url,
        TimeText(e.allDay, e.start), EndText(e.allDay, e.end), e.allDay)
  }

  // The content lines of a calendar, line by line onto those before them.
  function WithTimes(fs: seq<Field>, r: Raw): seq<Field> {
    var started := fs + [Field(if r.allDay then DTSTART_DATE else DTSTART, r.start, false)];
    if r.end.Some? then started + [Field(if r.allDay then DTEND_DATE else DTEND, r.end.value, false)] else started
  }

  function WithOptional(fs: seq<Field>, name: string, value: string): seq<Field> {
    if value == "" then fs else fs + [Field(name, value, true)]
  }

  function WithHead(fs: seq<Field>, r: Raw): seq<Field> {
    WithTimes(fs + [Field(UID, r.uid, true)] + [Field(SUMMARY, r.summary, true)], r)
  }

  function WithTail(fs: seq<Field>, r: Raw): seq<Field> {
    WithOptional(WithOptional(WithOptional(fs, DESCRIPTION, r.description), LOCATION, r.location), URL, r.url)
  }

  function WithEvent(fs: seq<Field>, r: Raw): seq<Field> {
    WithTail(WithHead(fs + [Field(BEGIN, VEVENT, false)], r), r) + [Field(END, VEVENT, false)]
  }

  function WithEvents(fs: seq<Field>, events: seq<Event>): seq<Field> {
    if events == [] then fs
    else WithEvent(WithEvents(fs, events[..|events| - 1]), RawOf(events[|events| - 1]))
  }

  function Header(prodId: string): seq<Field> {
    [] + [Field(BEGIN, VCALENDAR, false)] + [Field(VERSION, TWO, false)] + [Field(PRODID, prodId, true)] +
    [Field(CALSCALE, GREGORIAN, false)] + [Field(METHOD, PUBLISH, false)]
  }

  function CalendarFields(cal: Calendar): seq<Field> {
    WithEvents(Header(cal.prodId), cal.events) + [Field(END, VCALENDAR, false)]
  }

  lemma PrintOneMore(fields: seq<Field>, f: Field)
    ensures Print(fields + [f]) == Print(fields) + Printed(f)
  {
    assert Texts(fields + [f]) == Texts(fields) + [Printed(f)];
    ConcatOneMore(Texts(fields), Printed(f));
  }

  /** The output buffer, with the content lines it holds. */
  class Buffer {
    var text: string
    ghost var fields: seq<Field>

    ghost predicate Valid()
      reads this
    {
      text == Print(fields)
    }

    constructor ()
      ensures Valid() && fields == []
    {
      text, fields := "", [];
    }

    method WriteLine(line: string, ghost f: Field)
      requires Valid() && line + CRLF == Printed(f)
      modifies this
      ensures Valid() && fields == old(fields) + [f]
    {
      PrintOneMore(fields, f);
      text := text + (line + CRLF);
      fields := fields + [f];
    }

    method WriteFolded(name: string, value: string)
      requires Valid()
      modifies this
      ensures Valid() && fields == old(fields) + [Field(name, value, true)]
    {
      var line := FoldProperty(name, value);
      WriteLine(line, Field(name, value, true));
    }

    method WritePlain(name: string, value: string)
      requires Valid()
      modifies this
      ensures Valid() && fields == old(fields) + [Field(name, value, false)]
    {
      WriteLine(name + ":" + value, Field(name, value, false));
    }

    method EncodeTimes(e: Event, ghost r: Raw)
      requires Valid() && r.allDay == e.allDay
      requires r.start == TimeText(e.allDay, e.start) && r.end == EndText(e.allDay, e.end)
      modifies this
      ensures Valid() && fields == WithTimes(old(fields), r)
    {
      if e.allDay {
        WritePlain(DTSTART_DATE, DateText(e.start));
        if e.end != 0 { WritePlain(DTEND_DATE, DateText(e.end)); }
      } else {
        WritePlain(DTSTART, DateTimeText(e.start));
        if e.end != 0 { WritePlain(DTEND, DateTimeText(e.end)); }
      }
    }

    method EncodeTail(description: string, location: string, url: string, ghost r: Raw)
      requires Valid() && r.description == EscapeText(description) && r.location == EscapeText(location) && r.url == url
      modifies this
      ensures Valid() && fields == WithTail(old(fields), r)
    {
      EscapeEmpty(description);
      EscapeEmpty(location);
      if description != "" { WriteFolded(DESCRIPTION, EscapeText(description)); }
      if location != "" { WriteFolded(LOCATION, EscapeText(location)); }
      if url != "" { WriteFolded(URL, url); }
    }

    method EncodeEvent(e: Event)
      requires Valid()
      modifies this
      ensures Valid() && fields == WithEvent(old(fields), RawOf(e))
    {
      ghost var r := RawOf(e);
      WritePlain(BEGIN, VEVENT);
      WriteFolded(UID, e.uid);
      WriteFolded(SUMMARY, EscapeText(e.summary));
      EncodeTimes(e, r);
      EncodeTail(e.description, e.location, e.url, r);
      WritePlain(END, VEVENT);
    }

    method EncodeHeader(prodId: string)
      requires Valid() && fields == []
      modifies this
      ensures Valid() && fields == Header(prodId)
    {
      WritePlain(BEGIN, VCALENDAR);
      WritePlain(VERSION, TWO);
      WriteFolded(PRODID, prodId);
      WritePlain(CALSCALE, GREGORIAN);
      WritePlain(METHOD, PUBLISH);
    }
  }

  method Encode(cal: Calendar) returns (text: string)
    ensures text == Print(CalendarFields(cal))
  {
    var b := new Buffer();
    b.EncodeHeader(cal.prodId);
    for i := 0 to |cal.events|
      invariant b.Valid() && b.fields == WithEvents(Header(cal.prodId), cal.events[..i])
    {
      b.EncodeEvent(cal.events[i]);
      assert cal.events[..i + 1][..i] == cal.events[..i];
    }
    assert cal.events[..|cal.events|] == cal.events;
    b.WritePlain(END, VCALENDAR);
    text := b.text;
  }
}
