/** When exactly the encoder's output can be read back. */
module ICalFaithful {
  import opened DispatchLog
  import opened SendTime
  import opened Civil
  import opened ICalText
  import opened ICal
  import opened ICalReader
  import opened ICalRoundTrip

  /** The values printed without escaping hold no line break. */
  predicate Clean(cal: Calendar) {
    NoCrlf(cal.prodId) && forall e <- cal.events :: NoCrlf(e.uid) && NoCrlf(e.url)
  }

  predicate Fits(cal: Calendar) {
    forall e <- cal.events :: EventFits(e)
  }

  // ---------------------------------------------------------------- clean calendars print good lines

  predicate PlainName(name: string) {
    name != "" && name[0] != ' ' && name[0] != '\t' && ':' !in name && '\r' !in name
  }

  lemma NoLfNoCrlf(s: string)
    requires '\n' !in s
    ensures NoCrlf(s)
  {}

  lemma GoodField(f: Field)
    requires PlainName(f.name) && NoCrlf(f.value)
    ensures Good(f)
  {
    var n := |f.name| + 1;
    forall i | 0 <= i < |Line(f)| ensures !CrlfAt(Line(f), i) {
      if i >= n { assert !CrlfAt(f.value, i - n); }
    }
  }

  lemma GoodOneMore(fs: seq<Field>, name: string, value: string, folded: bool)
    requires AllGood(fs) && PlainName(name) && NoCrlf(value)
    ensures AllGood(fs + [Field(name, value, folded)])
  {
    GoodField(Field(name, value, folded));
  }

  lemma GoodOptional(fs: seq<Field>, name: string, value: string)
    requires AllGood(fs) && PlainName(name) && NoCrlf(value)
    ensures AllGood(WithOptional(fs, name, value))
  {
    if value != "" { GoodOneMore(fs, name, value, true); }
  }

  /** No printed value breaks its line. */
  predicate RawClean(r: Raw) {
    && NoCrlf(r.uid) && NoCrlf(r.summary) && NoCrlf(r.description) && NoCrlf(r.location) && NoCrlf(r.url)
    && NoCrlf(r.start) && (r.end.Some? ==> NoCrlf(r.end.value))
  }

  lemma GoodTimes(fs: seq<Field>, r: Raw)
    requires AllGood(fs) && RawClean(r)
    ensures AllGood(WithTimes(fs, r))
  {
    GoodOneMore(fs, if r.allDay then DTSTART_DATE else DTSTART, r.start, false);
    if r.end.Some? {
      GoodOneMore(fs + [Field(if r.allDay then DTSTART_DATE else DTSTART, r.start, false)],
                  if r.allDay then DTEND_DATE else DTEND, r.end.value, false);
    }
  }

  lemma GoodHead(fs: seq<Field>, r: Raw)
    requires AllGood(fs) && RawClean(r)
    ensures AllGood(WithHead(fs, r))
  {
    GoodOneMore(fs, UID, r.uid, true);
    GoodOneMore(fs + [Field(UID, r.uid, true)], SUMMARY, r.summary, true);
    GoodTimes(fs + [Field(UID, r.uid, true)] + [Field(SUMMARY, r.summary, true)], r);
  }

  lemma GoodTail(fs: seq<Field>, r: Raw)
    requires AllGood(fs) && RawClean(r)
    ensures AllGood(WithTail(fs, r))
  {
    GoodOptional(fs, DESCRIPTION, r.description);
    var fs1 := WithOptional(fs, DESCRIPTION, r.description);
    GoodOptional(fs1, LOCATION, r.location);
    GoodOptional(WithOptional(fs1, LOCATION, r.location), URL, r.url);
  }

  lemma GoodEvent(fs: seq<Field>, r: Raw)
    requires AllGood(fs) && RawClean(r)
    ensures AllGood(WithEvent(fs, r))
  {
    GoodOneMore(fs, BEGIN, VEVENT, false);
    var fs1 := fs + [Field(BEGIN, VEVENT, false)];
    GoodHead(fs1, r);
    GoodTail(WithHead(fs1, r), r);
    GoodOneMore(WithTail(WithHead(fs1, r), r), END, VEVENT, false);
  }

  lemma TimeTextClean(allDay: bool, t: Instant)
    ensures NoCrlf(TimeText(allDay, t))
  {
    if allDay { DateNoLf(t); } else { DateTimeNoLf(t); }
    NoLfNoCrlf(TimeText(allDay, t));
  }

  lemma EscapedClean(s: string)
    ensures NoCrlf(EscapeText(s))
  {
    EscapedHasNoLf(s);
    NoLfNoCrlf(EscapeText(s));
  }

  lemma RawOfClean(e: Event, r: Raw)
    requires r == RawOf(e) && NoCrlf(e.uid) && NoCrlf(e.url)
    ensures RawClean(r)
  {
    EscapedClean(e.summary);
    EscapedClean(e.description);
    EscapedClean(e.location);
    TimeTextClean(e.allDay, e.start);
    TimeTextClean(e.allDay, e.end);
  }

  lemma {:induction false} GoodEvents(fs: seq<Field>, events: seq<Event>)
    requires AllGood(fs) && forall e <- events :: NoCrlf(e.uid) && NoCrlf(e.url)
    ensures AllGood(WithEvents(fs, events))
  {
    if events != [] {
      var n := |events| - 1;
      GoodEvents(fs, events[..n]);
      RawOfClean(events[n], RawOf(events[n]));
      GoodEvent(WithEvents(fs, events[..n]), RawOf(events[n]));
    }
  }

  lemma GoodHeader(prodId: string)
    requires NoCrlf(prodId)
    ensures AllGood(Header(prodId))
  {
    var fs0: seq<Field> := [];
    var fs1 := fs0 + [Field(BEGIN, VCALENDAR, false)];
    var fs2 := fs1 + [Field(VERSION, TWO, false)];
    var fs3 := fs2 + [Field(PRODID, prodId, true)];
    var fs4 := fs3 + [Field(CALSCALE, GREGORIAN, false)];
    GoodOneMore(fs0, BEGIN, VCALENDAR, false);
    GoodOneMore(fs1, VERSION, TWO, false);
    GoodOneMore(fs2, PRODID, prodId, true);
    GoodOneMore(fs3, CALSCALE, GREGORIAN, false);
    GoodOneMore(fs4, METHOD, PUBLISH, false);
  }

  lemma GoodCalendar(cal: Calendar)
    requires Clean(cal)
    ensures AllGood(CalendarFields(cal))
  {
    GoodHeader(cal.prodId);
    GoodEvents(Header(cal.prodId), cal.events);
    GoodOneMore(WithEvents(Header(cal.prodId), cal.events), END, VCALENDAR, false);
  }

  lemma RunCalendar(cal: Calendar)
    requires Fits(cal)
    ensures Run(CalendarFields(cal)) == Done(cal.prodId, AllAtPrecision(cal.events))
  {
    RunHeader(cal.prodId);
    RunEvents(Header(cal.prodId), cal.events);
    NamesRead();
    RunOneMore(WithEvents(Header(cal.prodId), cal.events), Field(END, VCALENDAR, false));
  }

  lemma ReadLines(text: string, lines: seq<string>, prodId: string, events: seq<Event>)
    requires LinesFrom("", Unfold(text)) == lines + [""] && RunLines(lines) == Done(prodId, events)
    ensures Read(text) == Some(Calendar(prodId, events))
  {
    assert (lines + [""])[..|lines|] == lines;
  }

  lemma ReadPrint(cal: Calendar, fields: seq<Field>)
    requires fields == CalendarFields(cal) && Clean(cal) && Fits(cal)
    ensures Read(Print(fields)) == Some(Calendar(cal.prodId, AllAtPrecision(cal.events)))
  {
    GoodCalendar(cal);
    RunCalendar(cal);
    PrintedReads(fields, cal.prodId, AllAtPrecision(cal.events));
  }

  lemma PrintedReads(fields: seq<Field>, prodId: string, events: seq<Event>)
    requires AllGood(fields) && Run(fields) == Done(prodId, events)
    ensures Read(Print(fields)) == Some(Calendar(prodId, events))
  {
    LinesOfPrint(fields);
    RunOfLines(fields);
    ReadLines(Print(fields), Lines(fields), prodId, events);
  }

  // ---------------------------------------------------------------- what a reader can return at all

  predicate AllNoCrlf(lines: seq<string>) {
    forall l <- lines :: NoCrlf(l)
  }

  // Nothing the reader splits off holds a line break.
  lemma {:induction false} PiecesNoCrlf(cur: string, s: string)
    requires NoCrlf(cur) && (cur != "" && cur[|cur| - 1] == '\r' && s != "" ==> s[0] != '\n')
    ensures AllNoCrlf(LinesFrom(cur, s))
    decreases |s|
  {
    if s != "" {
      if CrlfAt(s, 0) {
        PiecesNoCrlf("", s[2..]);
      } else {
        var next := cur + [s[0]];
        forall i | 0 <= i < |next| ensures !CrlfAt(next, i) { assert i < |cur| ==> !CrlfAt(cur, i); }
        PiecesNoCrlf(next, s[1..]);
      }
    }
  }

  lemma DigitBelow(c: char)
    requires IsDigit(c)
    ensures DigitValue(c) <= 9
  {
    assert c as int <= '9' as int;
  }

  lemma {:induction false} ValueBelow(s: string)
    requires AllDigits(s)
    ensures Value(s) < Pow10(|s|)
  {
    if s != "" {
      var n := |s| - 1;
      ValueBelow(s[..n]);
      DigitBelow(s[n]);
      assert |s[..n]| == n && Pow10(|s|) == 10 * Pow10(n);
    }
  }

  lemma FourDigitYear(s: string)
    requires AllDigits(s) && |s| == 4
    ensures 0 <= Value(s) <= 9999
  {
    ValueBelow(s);
    assert Pow10(4) == 10 * Pow10(3) == 100 * Pow10(2) == 1000 * Pow10(1) == 10000 * Pow10(0);
  }

  lemma YearOfDay(d: Date, n: int, clock: int)
    requires ValidDate(d) && n == DayNumber(d.year, d.month, d.day) && 0 <= d.year <= 9999 && 0 <= clock < DAY
    ensures YearFits(n * DAY + clock)
  {
    DateOfDayNumber(d);
    assert (n * DAY + clock) / DAY == n;
  }

  lemma ParsedDateFits(s: string, clock: int)
    requires ParseDate(s).Some? && 0 <= clock < DAY
    ensures YearFits(ParseDate(s).value + clock)
  {
    var d := Date(Value(s[0..4]), Value(s[4..6]), Value(s[6..8]));
    FourDigitYear(s[0..4]);
    YearOfDay(d, DayNumber(d.year, d.month, d.day), clock);
  }

  lemma ParsedClockBelow(s: string)
    requires ParseClock(s).Some?
    ensures 0 <= ParseClock(s).value < DAY
  {}

  lemma ParsedParts(s: string)
    requires ParseDateTime(s).Some?
    ensures |s| == 16 && ParseDate(s[..8]).Some? && ParseClock(s[8..]).Some?
    ensures ParseDateTime(s).value == ParseDate(s[..8]).value + ParseClock(s[8..]).value
  {}

  lemma ParsedDateTimeFits(s: string)
    requires ParseDateTime(s).Some?
    ensures YearFits(ParseDateTime(s).value)
  {
    ParsedParts(s);
    var clock := ParseClock(s[8..]).value;
    ParsedClockBelow(s[8..]);
    ParsedDateFits(s[..8], clock);
  }

  lemma ParsedTimeFits(allDay: bool, s: string)
    requires ParseTime(allDay, s).Some?
    ensures YearFits(ParseTime(allDay, s).value)
  {
    if allDay { ParsedDateFits(s, 0); } else { ParsedDateTimeFits(s); }
  }

  lemma ZeroFits()
    ensures YearFits(0)
  {
    YearOfDay(Date(1, 1, 1), 0, 0);
  }

  lemma ParsedEndFits(allDay: bool, s: Option<string>)
    requires ParseEnd(allDay, s).Some?
    ensures YearFits(ParseEnd(allDay, s).value)
  {
    if s.None? { ZeroFits(); } else { ParsedTimeFits(allDay, s.value); }
  }

  predicate EventOk(e: Event) {
    NoCrlf(e.uid) && NoCrlf(e.url) && EventFits(e)
  }

  lemma InterpretedOk(r: Raw)
    requires NoCrlf(r.uid) && NoCrlf(r.url) && Interpret(r).Some?
    ensures EventOk(Interpret(r).value)
  {
    ParsedTimeFits(r.allDay, r.start);
    ParsedEndFits(r.allDay, r.end);
  }

  predicate PropsOk(props: map<Prop, string>) {
    forall p <- props :: NoCrlf(props[p])
  }

  lemma CollectedOk(props: map<Prop, string>)
    requires PropsOk(props) && Collect(props).Some?
    ensures NoCrlf(Collect(props).value.uid) && NoCrlf(Collect(props).value.url)
  {}

  lemma BuiltOk(props: map<Prop, string>)
    requires PropsOk(props) && Build(props).Some?
    ensures EventOk(Build(props).value)
  {
    CollectedOk(props);
    InterpretedOk(Collect(props).value);
  }

  predicate EventsOk(events: seq<Event>) {
    forall e <- events :: EventOk(e)
  }

  predicate ReadingOk(r: Reading) {
    match r
    case InCalendar(prodId, events) => EventsOk(events) && (prodId.Some? ==> NoCrlf(prodId.value))
    case InEvent(prodId, events, props) =>
      EventsOk(events) && PropsOk(props) && (prodId.Some? ==> NoCrlf(prodId.value))
    case Done(producer, events) => EventsOk(events) && NoCrlf(producer)
    case _ => true
  }

  lemma StepEventOk(r: Reading, p: Prop, value: string)
    requires r.InEvent? && ReadingOk(r) && NoCrlf(value)
    ensures ReadingOk(StepEvent(r, p, value))
  {
    if Build(r.props).Some? { BuiltOk(r.props); }
  }

  lemma StepOk(r: Reading, p: Prop, value: string)
    requires ReadingOk(r) && NoCrlf(value)
    ensures ReadingOk(Step(r, p, value))
  {
    if r.InEvent? { StepEventOk(r, p, value); }
  }

  lemma StepLineOk(r: Reading, line: string)
    requires ReadingOk(r) && NoCrlf(line)
    ensures ReadingOk(StepLine(r, line))
  {
    var i := ColonAt(line);
    if i < |line| {
      NoCrlfPart(line, i + 1, |line|);
      assert line[i + 1..|line|] == line[i + 1..];
      StepOk(r, PropOf(line[..i]), line[i + 1..]);
    }
  }

  lemma {:induction false} RunLinesOk(lines: seq<string>)
    requires AllNoCrlf(lines)
    ensures ReadingOk(RunLines(lines))
  {
    if lines != [] {
      var n := |lines| - 1;
      RunLinesOk(lines[..n]);
      StepLineOk(RunLines(lines[..n]), lines[n]);
    }
  }

  /** Whatever text is read, the result is a calendar that could have been printed faithfully. */
  lemma ReadIsOk(text: string)
    requires Read(text).Some?
    ensures Clean(Read(text).value) && Fits(Read(text).value)
  {
    var lines := LinesFrom("", Unfold(text));
    PiecesNoCrlf("", Unfold(text));
    RunLinesOk(lines[..|lines| - 1]);
  }

  lemma SameYear(allDay: bool, t: Instant)
    ensures YearFits(TimeAtPrecision(allDay, t)) <==> YearFits(t)
  {
    assert TimeAtPrecision(allDay, t) / DAY == t / DAY;
  }

  lemma {:induction false} AllAtPrecisionAre(events: seq<Event>)
    ensures |AllAtPrecision(events)| == |events|
    ensures forall i :: 0 <= i < |events| ==> AllAtPrecision(events)[i] == AtPrecision(events[i])
  {
    if events != [] { AllAtPrecisionAre(events[..|events| - 1]); }
  }

  lemma SameFits(e: Event)
    ensures EventFits(AtPrecision(e)) <==> EventFits(e)
  {
    SameYear(e.allDay, e.start);
    SameYear(e.allDay, e.end);
  }

  lemma AtPrecisionFits(events: seq<Event>, i: nat)
    requires i < |events| == |AllAtPrecision(events)| && EventFits(AllAtPrecision(events)[i])
    ensures EventFits(events[i])
  {
    AllAtPrecisionAre(events);
    SameFits(events[i]);
  }

  lemma AtPrecisionKeeps(cal: Calendar, seen: seq<Event>)
    requires seen == AllAtPrecision(cal.events)
    requires Clean(Calendar(cal.prodId, seen)) && Fits(Calendar(cal.prodId, seen))
    ensures Clean(cal) && Fits(cal)
  {
    AllAtPrecisionAre(cal.events);
    forall i | 0 <= i < |cal.events|
      ensures NoCrlf(cal.events[i].uid) && NoCrlf(cal.events[i].url) && EventFits(cal.events[i])
    {
      assert seen[i] in seen;
      AtPrecisionFits(cal.events, i);
    }
  }

  /** Main result: reading the encoder's output returns the product id and the events in order, texts as
      they were and times at the printed precision, exactly if no UID, URL or PRODID holds a line break
      and all years fit four digits. The other texts may hold anything. */
  lemma RoundTrip(cal: Calendar)
    ensures Read(Print(CalendarFields(cal))) == Some(Calendar(cal.prodId, AllAtPrecision(cal.events)))
      <==> Clean(cal) && Fits(cal)
  {
    var text, seen := Print(CalendarFields(cal)), AllAtPrecision(cal.events);
    if Clean(cal) && Fits(cal) {
      ReadPrint(cal, CalendarFields(cal));
    } else {
      if Read(text) == Some(Calendar(cal.prodId, seen)) {
        ReadIsOk(text);
        AtPrecisionKeeps(cal, seen);
      }
    }
  }
}
