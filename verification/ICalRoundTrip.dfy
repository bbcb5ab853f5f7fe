/** Reading what the encoder printed gives the calendar back, at the printed precision. */
module ICalRoundTrip {
  import opened DispatchLog
  import opened SendTime
  import opened Civil
  import opened Strings
  import opened ICalText
  import opened ICal
  import opened ICalReader

  // ---------------------------------------------------------------- numbers

  function Pow10(w: nat): nat {
    if w == 0 then 1 else 10 * Pow10(w - 1)
  }

  lemma {:induction false} DecimalReads(n: nat, w: nat)
    ensures AllDigits(Decimal(n, w)) && Value(Decimal(n, w)) == n
    ensures n < Pow10(w) ==> |Decimal(n, w)| == w
    decreases n, w
  {
    if n > 0 || w > 0 {
      var w' := if w == 0 then 0 else w - 1;
      DecimalReads(n / 10, w');
      var s := Decimal(n, w);
      assert s[..|s| - 1] == Decimal(n / 10, w');
      assert s[|s| - 1] == Digit(n % 10);
      assert w > 0 && n < Pow10(w) ==> n / 10 < Pow10(w');
    }
  }

  lemma TwoDigits(n: nat)
    requires n < 100
    ensures var s := Padded(n, 2); |s| == 2 && AllDigits(s) && Value(s) == n
  {
    assert Pow10(2) == 10 * Pow10(1) == 100 * Pow10(0);
    DecimalReads(n, 2);
  }

  lemma FourDigits(n: nat)
    requires n < 10000
    ensures var s := Padded(n, 4); |s| == 4 && AllDigits(s) && Value(s) == n
  {
    assert Pow10(4) == 10 * Pow10(3) == 100 * Pow10(2) == 1000 * Pow10(1) == 10000 * Pow10(0);
    DecimalReads(n, 4);
  }

  // ---------------------------------------------------------------- dates and times

  /** The year fits four digits. */
  predicate YearFits(t: Instant) {
    0 <= DateOf(t / DAY).year <= 9999
  }

  lemma JoinedDate(y: string, m: string, d: string)
    requires |y| == 4 && |m| == 2 && |d| == 2 && AllDigits(y) && AllDigits(m) && AllDigits(d)
    ensures var s := y + m + d; |s| == 8 && AllDigits(s) && s[0..4] == y && s[4..6] == m && s[6..8] == d
  {}

  lemma DateReads(t: Instant)
    requires YearFits(t)
    ensures |DateText(t)| == 8 && ParseDate(DateText(t)) == Some(t / DAY * DAY)
  {
    var d := DateOf(t / DAY);
    DateOfIs(t / DAY);
    DayBelow100(d);
    FourDigits(d.year);
    TwoDigits(d.month);
    TwoDigits(d.day);
    JoinedDate(Padded(d.year, 4), Padded(d.month, 2), Padded(d.day, 2));
  }

  lemma DayBelow100(d: Date)
    requires ValidDate(d)
    ensures 1 <= d.day < 100
  {}

  lemma JoinedClock(h: string, m: string, sec: string)
    requires |h| == 2 && |m| == 2 && |sec| == 2 && AllDigits(h) && AllDigits(m) && AllDigits(sec)
    ensures var s := "T" + h + m + sec + "Z";
      && |s| == 8 && s[0] == 'T' && s[7] == 'Z' && AllDigits(s[1..7])
      && s[1..3] == h && s[3..5] == m && s[5..7] == sec
  {
    var s := "T" + h + m + sec + "Z";
    assert s[1..7] == h + m + sec;
  }

  lemma ClockParts(r: int)
    requires 0 <= r < DAY
    ensures 0 <= r / HOUR < 24 && 0 <= r % HOUR / MINUTE < 60 && 0 <= r % MINUTE / SECOND < 60
    ensures r / HOUR * HOUR + r % HOUR / MINUTE * MINUTE + r % MINUTE / SECOND * SECOND == r - r % SECOND
  {}

  lemma ClockReads(r: int)
    requires 0 <= r < DAY
    ensures |ClockText(r)| == 8 && ParseClock(ClockText(r)) == Some(r - r % SECOND)
  {
    ClockParts(r);
    TwoDigits(r / HOUR);
    TwoDigits(r % HOUR / MINUTE);
    TwoDigits(r % MINUTE / SECOND);
    JoinedClock(Padded(r / HOUR, 2), Padded(r % HOUR / MINUTE, 2), Padded(r % MINUTE / SECOND, 2));
  }

  lemma SecondOfDay(t: Instant, day: Instant, clock: int)
    requires day == t / DAY * DAY && clock == t % DAY - t % DAY % SECOND
    ensures day + clock == t - t % SECOND
  {}

  lemma JoinedDateTime(a: string, b: string, day: Instant, clock: int)
    requires |a| == 8 && |b| == 8 && ParseDate(a) == Some(day) && ParseClock(b) == Some(clock)
    ensures ParseDateTime(a + b) == Some(day + clock)
  {
    assert (a + b)[..8] == a && (a + b)[8..] == b;
  }

  lemma JoinedReads(t: Instant, a: string, b: string)
    requires |a| == 8 && |b| == 8
    requires ParseDate(a) == Some(t / DAY * DAY) && ParseClock(b) == Some(t % DAY - t % DAY % SECOND)
    ensures ParseDateTime(a + b) == Some(t - t % SECOND)
  {
    SecondOfDay(t, t / DAY * DAY, t % DAY - t % DAY % SECOND);
    JoinedDateTime(a, b, t / DAY * DAY, t % DAY - t % DAY % SECOND);
  }

  lemma ClockOf(t: Instant)
    ensures |ClockText(t % DAY)| == 8 && ParseClock(ClockText(t % DAY)) == Some(t % DAY - t % DAY % SECOND)
  {
    ClockReads(t % DAY);
  }

  lemma DateTimeReads(t: Instant)
    requires YearFits(t)
    ensures ParseDateTime(DateTimeText(t)) == Some(t - t % SECOND)
  {
    DateReads(t);
    ClockOf(t);
    JoinedReads(t, DateText(t), ClockText(t % DAY));
  }

  lemma {:induction false} DecimalNoLf(n: nat, w: nat)
    ensures '\n' !in Decimal(n, w)
    decreases n, w
  {
    if n > 0 || w > 0 { DecimalNoLf(n / 10, if w == 0 then 0 else w - 1); }
  }

  lemma PaddedNoLf(n: int, w: nat)
    ensures '\n' !in Padded(n, w)
  {
    DecimalNoLf(if n < 0 then -n else n, w);
  }

  lemma DateNoLf(t: Instant)
    ensures '\n' !in DateText(t)
  {
    var d := DateOf(t / DAY);
    PaddedNoLf(d.year, 4);
    PaddedNoLf(d.month, 2);
    PaddedNoLf(d.day, 2);
  }

  lemma ClockNoLf(r: int)
    ensures '\n' !in ClockText(r)
  {
    PaddedNoLf(r / HOUR, 2);
    PaddedNoLf(r % HOUR / MINUTE, 2);
    PaddedNoLf(r % MINUTE / SECOND, 2);
  }

  lemma DateTimeNoLf(t: Instant)
    ensures '\n' !in DateTimeText(t)
  {
    DateNoLf(t);
    ClockNoLf(t % DAY);
  }

  // ---------------------------------------------------------------- from text to content lines

  /** A content line the reader finds again: no line break inside, and a name that neither starts like
      a continuation nor holds a colon. */
  predicate Good(f: Field) {
    NoCrlf(Line(f)) && f.name != "" && f.name[0] != ' ' && f.name[0] != '\t' && ':' !in f.name
  }

  predicate AllGood(fields: seq<Field>) {
    forall f <- fields :: Good(f)
  }

  function Lines(fields: seq<Field>): seq<string> {
    seq(|fields|, i requires 0 <= i < |fields| => Line(fields[i]))
  }

  function Ended(lines: seq<string>): string {
    if lines == [] then "" else lines[0] + CRLF + Ended(lines[1..])
  }

  lemma UnfoldChar(c: char, t: string)
    requires !FoldMark([c] + t)
    ensures Unfold([c] + t) == [c] + Unfold(t)
  {
    assert ([c] + t)[1..] == t;
  }

  lemma NoMark(t: string)
    requires t == "" || (t[0] != ' ' && t[0] != '\t')
    ensures !FoldMark(['\r'] + (['\n'] + t)) && !FoldMark(['\n'] + t)
  {}

  lemma BreakFirst(t: string)
    ensures CRLF + t == ['\r'] + (['\n'] + t)
  {}

  lemma UnfoldBreak(t: string)
    requires t == "" || (t[0] != ' ' && t[0] != '\t')
    ensures Unfold(CRLF + t) == CRLF + Unfold(t)
  {
    NoMark(t);
    UnfoldChar('\r', ['\n'] + t);
    UnfoldChar('\n', t);
    BreakFirst(t);
    BreakFirst(Unfold(t));
  }

  lemma UnfoldLine(f: Field, t: string)
    requires Good(f) && (t == "" || (t[0] != ' ' && t[0] != '\t'))
    ensures Unfold(Printed(f) + t) == Line(f) + CRLF + Unfold(t)
  {
    UnfoldBreak(t);
    var line := if f.folded then Fold(Line(f)) else Line(f);
    assert Printed(f) == line + CRLF;
    Regroup(line, CRLF, t);
    Regroup(Line(f), CRLF, Unfold(t));
    if f.folded { UnfoldFold(Line(f), CRLF + t); } else { UnfoldPlain(Line(f), CRLF + t); }
  }

  lemma FoldStarts(line: string)
    requires line != ""
    ensures Fold(line) != "" && Fold(line)[0] == line[0]
  {}

  lemma PrintStarts(fields: seq<Field>)
    requires AllGood(fields)
    ensures var t := Print(fields); t == "" || (t[0] != ' ' && t[0] != '\t')
  {
    if fields != [] {
      assert Good(fields[0]);
      assert Texts(fields)[0] == Printed(fields[0]);
      FoldStarts(Line(fields[0]));
    }
  }

  lemma {:induction false} UnfoldPrint(fields: seq<Field>)
    requires AllGood(fields)
    ensures Unfold(Print(fields)) == Ended(Lines(fields))
  {
    if fields != [] {
      var f, rest := fields[0], fields[1..];
      assert Texts(fields)[0] == Printed(f) && Texts(fields)[1..] == Texts(rest);
      assert Lines(fields)[0] == Line(f) && Lines(fields)[1..] == Lines(rest);
      assert Good(f);
      UnfoldPrint(rest);
      PrintStarts(rest);
      UnfoldLine(f, Print(rest));
    }
  }

  lemma {:induction false} SplitLines(lines: seq<string>)
    requires forall l <- lines :: NoCrlf(l)
    ensures LinesFrom("", Ended(lines)) == lines + [""]
  {
    if lines != [] {
      SplitLine("", lines[0], Ended(lines[1..]));
      SplitLines(lines[1..]);
      assert "" + lines[0] == lines[0];
      assert lines == [lines[0]] + lines[1..];
    }
  }

  /** The reader recovers the content lines from the printed text. */
  lemma LinesOfPrint(fields: seq<Field>)
    requires AllGood(fields)
    ensures LinesFrom("", Unfold(Print(fields))) == Lines(fields) + [""]
  {
    UnfoldPrint(fields);
    forall l <- Lines(fields) ensures NoCrlf(l) {
      var i :| 0 <= i < |fields| && l == Line(fields[i]);
      assert Good(fields[i]);
    }
    SplitLines(Lines(fields));
  }

  // ---------------------------------------------------------------- from content lines to events

  function Run(fields: seq<Field>): Reading {
    if fields == [] then Outside
    else
      var f := fields[|fields| - 1];
      Step(Run(fields[..|fields| - 1]), PropOf(f.name), f.value)
  }

  lemma StepOfLine(r: Reading, f: Field)
    requires ':' !in f.name
    ensures StepLine(r, Line(f)) == Step(r, PropOf(f.name), f.value)
  {
    var i := ColonAt(Line(f));
    assert Line(f)[|f.name|] == ':';
    forall j | 0 <= j < |f.name| ensures Line(f)[j] != ':' { assert Line(f)[j] == f.name[j]; }
    assert i == |f.name|;
    assert Line(f)[..i] == f.name && Line(f)[i + 1..] == f.value;
  }

  lemma {:induction false} RunOfLines(fields: seq<Field>)
    requires AllGood(fields)
    ensures RunLines(Lines(fields)) == Run(fields)
  {
    if fields != [] {
      var n := |fields| - 1;
      RunOfLines(fields[..n]);
      assert Lines(fields)[..n] == Lines(fields[..n]);
      assert Good(fields[n]);
      StepOfLine(Run(fields[..n]), fields[n]);
    }
  }

  lemma RunOneMore(fs: seq<Field>, f: Field)
    ensures Run(fs + [f]) == Step(Run(fs), PropOf(f.name), f.value)
  {
    assert (fs + [f])[..|fs|] == fs;
  }

  /** What the output can carry of an event: whole days, or whole seconds. */
  function TimeAtPrecision(allDay: bool, t: Instant): Instant {
    if allDay then t / DAY * DAY else t - t % SECOND
  }

  function AtPrecision(e: Event): Event {
    e.(start := TimeAtPrecision(e.allDay, e.start), end := TimeAtPrecision(e.allDay, e.end))
  }

  function AllAtPrecision(events: seq<Event>): seq<Event> {
    if events == [] then []
    else AllAtPrecision(events[..|events| - 1]) + [AtPrecision(events[|events| - 1])]
  }

  // The properties of an event as its lines are read.
  function Timed(props: map<Prop, string>, r: Raw): map<Prop, string> {
    var started := props[if r.allDay then StartsOn else Starts := r.start];
    if r.end.Some? then started[if r.allDay then EndsOn else Ends := r.end.value] else started
  }

  function With(props: map<Prop, string>, p: Prop, value: string): map<Prop, string> {
    if value == "" then props else props[p := value]
  }

  function Head(r: Raw): map<Prop, string> {
    Timed(map[Id := r.uid][Title := r.summary], r)
  }

  function Tail(props: map<Prop, string>, r: Raw): map<Prop, string> {
    With(With(With(props, Details, r.description), Place, r.location), Link, r.url)
  }

  lemma NamesRead()
    ensures PropOf(BEGIN) == Opens && PropOf(END) == Closes && PropOf(PRODID) == Producer
    ensures PropOf(UID) == Id && PropOf(SUMMARY) == Title && PropOf(DESCRIPTION) == Details
    ensures PropOf(LOCATION) == Place && PropOf(URL) == Link
    ensures PropOf(VERSION) == Other && PropOf(CALSCALE) == Other && PropOf(METHOD) == Other
  {}

  lemma TimeNamesRead()
    ensures PropOf(DTSTART) == Starts && PropOf(DTSTART_DATE) == StartsOn
    ensures PropOf(DTEND) == Ends && PropOf(DTEND_DATE) == EndsOn
  {}

  lemma RunProp(fs: seq<Field>, name: string, value: string, folded: bool, p: Prop)
    requires Run(fs).InEvent? && PropOf(name) == p && p !in Run(fs).props
    requires !p.Opens? && !p.Closes? && !p.Producer? && !p.Other?
    ensures Run(fs + [Field(name, value, folded)]) == Run(fs).(props := Run(fs).props[p := value])
  {
    RunOneMore(fs, Field(name, value, folded));
  }

  lemma RunTimes(fs: seq<Field>, r: Raw)
    requires Run(fs).InEvent? && Run(fs).props.Keys == {Id, Title}
    ensures Run(WithTimes(fs, r)) == Run(fs).(props := Timed(Run(fs).props, r))
  {
    TimeNamesRead();
    RunProp(fs, if r.allDay then DTSTART_DATE else DTSTART, r.start, false, if r.allDay then StartsOn else Starts);
    if r.end.Some? {
      RunProp(fs + [Field(if r.allDay then DTSTART_DATE else DTSTART, r.start, false)],
              if r.allDay then DTEND_DATE else DTEND, r.end.value, false, if r.allDay then EndsOn else Ends);
    }
  }

  lemma RunOptional(fs: seq<Field>, name: string, value: string, p: Prop)
    requires Run(fs).InEvent? && PropOf(name) == p && p !in Run(fs).props
    requires !p.Opens? && !p.Closes? && !p.Producer? && !p.Other?
    ensures Run(WithOptional(fs, name, value)) == Run(fs).(props := With(Run(fs).props, p, value))
  {
    if value != "" { RunProp(fs, name, value, true, p); }
  }

  lemma RunHead(fs: seq<Field>, r: Raw)
    requires Run(fs).InEvent? && Run(fs).props == map[]
    ensures Run(WithHead(fs, r)) == Run(fs).(props := Head(r))
  {
    NamesRead();
    RunProp(fs, UID, r.uid, true, Id);
    var fs1 := fs + [Field(UID, r.uid, true)];
    RunProp(fs1, SUMMARY, r.summary, true, Title);
    RunTimes(fs1 + [Field(SUMMARY, r.summary, true)], r);
  }

  lemma RunTail(fs: seq<Field>, r: Raw)
    requires Run(fs).InEvent? && Details !in Run(fs).props && Place !in Run(fs).props && Link !in Run(fs).props
    ensures Run(WithTail(fs, r)) == Run(fs).(props := Tail(Run(fs).props, r))
  {
    NamesRead();
    RunOptional(fs, DESCRIPTION, r.description, Details);
    var fs1 := WithOptional(fs, DESCRIPTION, r.description);
    RunOptional(fs1, LOCATION, r.location, Place);
    RunOptional(WithOptional(fs1, LOCATION, r.location), URL, r.url, Link);
  }

  lemma CollectHead(r: Raw)
    ensures Details !in Head(r) && Place !in Head(r) && Link !in Head(r)
    ensures Collect(Head(r)) == Some(r.(description := "", location := "", url := ""))
  {}

  lemma CollectWith(props: map<Prop, string>, p: Prop, value: string, r: Raw)
    requires p !in props && Collect(props) == Some(r) && (p.Details? || p.Place? || p.Link?)
    ensures Collect(With(props, p, value)) ==
      Some(if p.Details? then r.(description := value) else if p.Place? then r.(location := value)
        else r.(url := value))
  {}

  /** The reader collects the printed values again, and nothing else. */
  lemma CollectReads(r: Raw)
    ensures Collect(Tail(Head(r), r)) == Some(r)
  {
    CollectHead(r);
    var a := With(Head(r), Details, r.description);
    var b := With(a, Place, r.location);
    CollectWith(Head(r), Details, r.description, r.(description := "", location := "", url := ""));
    CollectWith(a, Place, r.location, r.(location := "", url := ""));
    CollectWith(b, Link, r.url, r.(url := ""));
  }

  predicate EventFits(e: Event) {
    YearFits(e.start) && YearFits(e.end)
  }

  lemma TimeReads(allDay: bool, t: Instant)
    requires YearFits(t)
    ensures ParseTime(allDay, TimeText(allDay, t)) == Some(TimeAtPrecision(allDay, t))
  {
    if allDay { DateReads(t); } else { DateTimeReads(t); }
  }

  lemma EndReads(allDay: bool, t: Instant)
    requires YearFits(t)
    ensures ParseEnd(allDay, EndText(allDay, t)) == Some(TimeAtPrecision(allDay, t))
  {
    if t != 0 { TimeReads(allDay, t); }
  }

  lemma TimesRead(e: Event, r: Raw)
    requires EventFits(e) && r.allDay == e.allDay
    requires r.start == TimeText(e.allDay, e.start) && r.end == EndText(e.allDay, e.end)
    ensures ParseTime(r.allDay, r.start) == Some(TimeAtPrecision(e.allDay, e.start))
    ensures ParseEnd(r.allDay, r.end) == Some(TimeAtPrecision(e.allDay, e.end))
  {
    TimeReads(e.allDay, e.start);
    EndReads(e.allDay, e.end);
  }

  lemma TextsRead(e: Event, r: Raw)
    requires r.summary == EscapeText(e.summary) && r.description == EscapeText(e.description)
    requires r.location == EscapeText(e.location)
    ensures Unescape(r.summary) == e.summary && Unescape(r.description) == e.description
    ensures Unescape(r.location) == e.location
  {
    UnescapeEscape(e.summary);
    UnescapeEscape(e.description);
    UnescapeEscape(e.location);
  }

  lemma Assembled(e: Event, r: Raw)
    requires r.uid == e.uid && r.url == e.url && r.allDay == e.allDay
    requires ParseTime(r.allDay, r.start) == Some(TimeAtPrecision(e.allDay, e.start))
    requires ParseEnd(r.allDay, r.end) == Some(TimeAtPrecision(e.allDay, e.end))
    requires Unescape(r.summary) == e.summary && Unescape(r.description) == e.description
    requires Unescape(r.location) == e.location
    ensures Interpret(r) == Some(AtPrecision(e))
  {}

  /** and its interpretation is the event, at the printed precision. */
  lemma InterpretReads(e: Event)
    requires EventFits(e)
    ensures Interpret(RawOf(e)) == Some(AtPrecision(e))
  {
    var r := RawOf(e);
    TimesRead(e, r);
    TextsRead(e, r);
    Assembled(e, r);
  }

  lemma RunBody(fs: seq<Field>, r: Raw)
    requires Run(fs).InEvent? && Run(fs).props == map[]
    ensures Run(WithTail(WithHead(fs, r), r)) == Run(fs).(props := Tail(Head(r), r))
  {
    RunHead(fs, r);
    CollectHead(r);
    RunTail(WithHead(fs, r), r);
  }

  lemma RunEvent(fs: seq<Field>, r: Raw, e: Event)
    requires Run(fs).InCalendar? && Interpret(r) == Some(e)
    ensures Run(WithEvent(fs, r)) == InCalendar(Run(fs).prodId, Run(fs).events + [e])
  {
    NamesRead();
    var fs1 := fs + [Field(BEGIN, VEVENT, false)];
    RunOneMore(fs, Field(BEGIN, VEVENT, false));
    RunBody(fs1, r);
    CollectReads(r);
    RunOneMore(WithTail(WithHead(fs1, r), r), Field(END, VEVENT, false));
  }

  lemma {:induction false} RunEvents(fs: seq<Field>, events: seq<Event>)
    requires Run(fs).InCalendar? && Run(fs).events == [] && forall e <- events :: EventFits(e)
    ensures Run(WithEvents(fs, events)) == InCalendar(Run(fs).prodId, AllAtPrecision(events))
  {
    if events != [] {
      var n := |events| - 1;
      RunEvents(fs, events[..n]);
      InterpretReads(events[n]);
      RunEvent(WithEvents(fs, events[..n]), RawOf(events[n]), AtPrecision(events[n]));
    }
  }

  lemma RunHeader(prodId: string)
    ensures Run(Header(prodId)) == InCalendar(Some(prodId), [])
  {
    NamesRead();
    var fs0: seq<Field> := [];
    var fs1 := fs0 + [Field(BEGIN, VCALENDAR, false)];
    var fs2 := fs1 + [Field(VERSION, TWO, false)];
    var fs3 := fs2 + [Field(PRODID, prodId, true)];
    var fs4 := fs3 + [Field(CALSCALE, GREGORIAN, false)];
    RunOneMore(fs0, Field(BEGIN, VCALENDAR, false));
    RunOneMore(fs1, Field(VERSION, TWO, false));
    RunOneMore(fs2, Field(PRODID, prodId, true));
    RunOneMore(fs3, Field(CALSCALE, GREGORIAN, false));
    RunOneMore(fs4, Field(METHOD, PUBLISH, false));
  }
}
